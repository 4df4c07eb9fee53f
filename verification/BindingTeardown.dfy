/**
 The end of a ClusterBinding. Two processes each hold a finalizer on it: the syncer, which
 must find both clusters clean, and the manager, which then removes the syncer itself.
 Every read and write is a step, so runs are all interleavings of the two with the rest.
 */
module BindingTeardown {
  import opened Wrappers

  const SYNCER := "kubeocean.io/clusterbinding-syncer"
  const MANAGER := "kubeocean.io/clusterbinding-manager"

  /** What the syncer looks for, in the order in which it looks. */
  datatype Kind =
    | VirtualNodes
    | FakePods | VirtualConfigMaps | VirtualSecrets | VirtualPVs | VirtualPVCs
    | PhysicalPods | PhysicalConfigMaps | PhysicalSecrets | PhysicalPVCs | PhysicalPVs

  const ORDER: seq<Kind> := [
    VirtualNodes,
    FakePods, VirtualConfigMaps, VirtualSecrets, VirtualPVs, VirtualPVCs,
    PhysicalPods, PhysicalConfigMaps, PhysicalSecrets, PhysicalPVCs, PhysicalPVs
  ]

  /** The place of every kind in that order: none is left out. */
  function Index(k: Kind): (i: nat)
    ensures i < KINDS && ORDER[i] == k
  {
    match k
    case VirtualNodes => 0
    case FakePods => 1
    case VirtualConfigMaps => 2
    case VirtualSecrets => 3
    case VirtualPVs => 4
    case VirtualPVCs => 5
    case PhysicalPods => 6
    case PhysicalConfigMaps => 7
    case PhysicalSecrets => 8
    case PhysicalPVCs => 9
    case PhysicalPVs => 10
  }

  const FAKE_PODS := 1
  const FIRST_PHYSICAL := 6
  const KINDS := 11

  datatype Binding = Binding(deleting: bool, finalizers: set<string>, version: nat)

  /**
   The syncer: in a deletion pass it has looked at the first `next` kinds, and `found` tells whether a virtual object
   turned up.
   */
  datatype SyncerPhase =
    | SyncerIdle
    | Adding(snap: Binding)
    | Looking(snap: Binding, next: nat, found: bool)
    | Releasing(snap: Binding)

  datatype ManagerPhase =
    | ManagerIdle
    | Deploying
    | DroppingSyncer(snap: Binding)
    | DroppingProxier(snap: Binding)
    | DroppingService(snap: Binding)
    | Finishing(snap: Binding)

  /** A virtual object that carries the mark by which its reconcilers know that the binding is being deleted. */
  datatype Mark = Mark(kind: Kind, name: string)

  datatype Part = SyncerDeployment | ProxierDeployment | ProxierService

  const ALL_PARTS := {SyncerDeployment, ProxierDeployment, ProxierService}

  datatype State = State(
    binding: Option<Binding>,
    things: map<Kind, set<string>>,   // what exists and belongs to the binding
    marked: set<Mark>,
    deployed: set<Part>,              // what the manager has deployed for the binding
    syncer: SyncerPhase,
    manager: ManagerPhase,
    guarded: bool,                    // the syncer's finalizer was on when deletion was requested
    clock: nat)

  datatype Action =
    | RequestDeletion
    | Others(kind: Kind, names: set<string>)
    | SyncerStarts
    | SyncerAddsFinalizer(ok: bool)
    | SyncerLooks(ok: bool)
    | SyncerReleases(ok: bool)
    | SyncerStops
    | ManagerStarts
    | ManagerDeploys(ok: bool)
    | ManagerDropsSyncer(ok: bool)
    | ManagerDropsProxier(ok: bool)
    | ManagerDropsService(ok: bool)
    | ManagerReleases(ok: bool)

  function Things(s: State, k: Kind): set<string> {
    if k in s.things then s.things[k] else {}
  }

  predicate Deleting(s: State) {
    s.binding.Some? && s.binding.value.deleting
  }

  function Put(s: State, deleting: bool, finalizers: set<string>): State {
    var binding := if deleting && finalizers == {} then None else Some(Binding(deleting, finalizers, s.clock + 1));
    s.(binding := binding, clock := s.clock + 1)
  }

  predicate UpToDate(s: State, snap: Binding) {
    s.binding.Some? && s.binding.value.version == snap.version
  }

  function Marks(kind: Kind, names: set<string>): set<Mark> {
    set x | x in names :: Mark(kind, x)
  }

  /** What a look at virtual objects does to them: fake pods are deleted, the others are marked. */
  function Swept(s: State, next: nat): State
    requires next < KINDS
  {
    if next == FAKE_PODS then s.(things := s.things[FakePods := {}])
    else s.(marked := s.marked + Marks(ORDER[next], Things(s, ORDER[next])))
  }

  /**
   One look of the deletion pass. Virtual objects are all counted before the pass gives up; anything else ends it at
   once.
   */
  function Look(s: State, snap: Binding, next: nat, found: bool): State
    requires next < KINDS
  {
    var clean := Things(s, ORDER[next]) == {};
    var swept := Swept(s, next);
    if next == 0 || next >= FIRST_PHYSICAL then
      if !clean then s.(syncer := SyncerIdle)
      else if next + 1 < KINDS then s.(syncer := Looking(snap, next + 1, found))
      else s.(syncer := if SYNCER in snap.finalizers then Releasing(snap) else SyncerIdle)
    else
      var found' := found || !clean;
      if next + 1 == FIRST_PHYSICAL && found' then swept.(syncer := SyncerIdle)
      else swept.(syncer := Looking(snap, next + 1, found'))
  }

  predicate BySyncer(a: Action) {
    a.SyncerStarts? || a.SyncerAddsFinalizer? || a.SyncerLooks? || a.SyncerReleases? || a.SyncerStops?
  }

  predicate ByManager(a: Action) {
    || a.ManagerStarts? || a.ManagerDeploys? || a.ManagerDropsSyncer? || a.ManagerDropsProxier?
    || a.ManagerDropsService? || a.ManagerReleases?
  }

  function SyncerStep(s: State, a: Action): State
    requires BySyncer(a)
  {
    match a
    case SyncerStarts =>
      if !s.syncer.SyncerIdle? || s.binding.None? then s
      else if Deleting(s) then s.(syncer := Looking(s.binding.value, 0, false))
      else if SYNCER !in s.binding.value.finalizers then s.(syncer := Adding(s.binding.value))
      else s
    case SyncerAddsFinalizer(ok) =>
      if !s.syncer.Adding? then s
      else if !ok || !UpToDate(s, s.syncer.snap) then s.(syncer := SyncerIdle)
      else Put(s, s.syncer.snap.deleting, s.syncer.snap.finalizers + {SYNCER}).(syncer := SyncerIdle)
    case SyncerLooks(ok) =>
      if !s.syncer.Looking? || s.syncer.next >= KINDS then s
      else if !ok then s.(syncer := SyncerIdle)
      else Look(s, s.syncer.snap, s.syncer.next, s.syncer.found)
    case SyncerReleases(ok) =>
      if !s.syncer.Releasing? then s
      else if !ok || !UpToDate(s, s.syncer.snap) then s.(syncer := SyncerIdle)
      else Put(s, s.syncer.snap.deleting, s.syncer.snap.finalizers - {SYNCER}).(syncer := SyncerIdle)
    case SyncerStops => s.(syncer := SyncerIdle)
  }

  function ManagerStep(s: State, a: Action): State
    requires ByManager(a)
  {
    match a
    case ManagerStarts =>
      if !s.manager.ManagerIdle? || s.binding.None? then s
      else if Deleting(s) then
        if SYNCER in s.binding.value.finalizers then s else s.(manager := DroppingSyncer(s.binding.value))
      else if MANAGER !in s.binding.value.finalizers then Put(s, false, s.binding.value.finalizers + {MANAGER})
      else s.(manager := Deploying)
    case ManagerDeploys(ok) =>
      if !s.manager.Deploying? then s
      else s.(manager := ManagerIdle, deployed := if ok then ALL_PARTS else s.deployed)
    case ManagerDropsSyncer(ok) =>
      if !s.manager.DroppingSyncer? then s
      else if ok then s.(deployed := s.deployed - {SyncerDeployment}, manager := DroppingProxier(s.manager.snap))
      else s.(manager := ManagerIdle)
    case ManagerDropsProxier(ok) =>
      if !s.manager.DroppingProxier? then s
      else if ok then s.(deployed := s.deployed - {ProxierDeployment}, manager := DroppingService(s.manager.snap))
      else s.(manager := ManagerIdle)
    case ManagerDropsService(ok) =>
      if !s.manager.DroppingService? then s
      else if ok then s.(deployed := s.deployed - {ProxierService}, manager := Finishing(s.manager.snap))
      else s.(manager := ManagerIdle)
    case ManagerReleases(ok) =>
      if !s.manager.Finishing? then s
      else if !ok || !UpToDate(s, s.manager.snap) then s.(manager := ManagerIdle)
      else Put(s, s.manager.snap.deleting, s.manager.snap.finalizers - {MANAGER}).(manager := ManagerIdle)
  }

  function Step(s: State, a: Action): State {
    if BySyncer(a) then SyncerStep(s, a)
    else if ByManager(a) then ManagerStep(s, a)
    else if a.Others? then s.(things := s.things[a.kind := a.names])
    else if s.binding.None? || Deleting(s) then s
    else Put(s, true, s.binding.value.finalizers).(guarded := SYNCER in s.binding.value.finalizers)
  }

  ghost predicate Trace(states: seq<State>, actions: seq<Action>) {
    && |states| == |actions| + 1
    && forall i :: 0 <= i < |actions| ==> states[i + 1] == Step(states[i], actions[i])
  }

  predicate Initial(s: State) {
    && s.binding.Some? && !s.binding.value.deleting && s.binding.value.version <= s.clock
    && s.syncer.SyncerIdle? && s.manager.ManagerIdle?
  }

  // ---------- What both processes rely on ----------

  ghost predicate Snapshot(s: State, snap: Binding) {
    && snap.version <= s.clock
    && (UpToDate(s, snap) ==> s.binding.value == snap)
  }

  /** Once the syncer's finalizer is off a deleting binding it stays off. */
  ghost predicate SyncerGone(s: State) {
    s.binding.None? || (s.binding.value.deleting && SYNCER !in s.binding.value.finalizers)
  }

  /** Deletion cannot be taken back. */
  ghost predicate Ending(s: State) {
    s.binding.None? || s.binding.value.deleting
  }

  ghost predicate SyncerOk(s: State) {
    match s.syncer
    case SyncerIdle => true
    case Adding(snap) => Snapshot(s, snap) && !snap.deleting
    case Looking(snap, next, found) =>
      Snapshot(s, snap) && snap.deleting && Ending(s) && next < KINDS && (found ==> next < FIRST_PHYSICAL)
    case Releasing(snap) => Snapshot(s, snap) && snap.deleting && Ending(s)
  }

  ghost predicate ManagerOk(s: State) {
    s.manager.DroppingSyncer? || s.manager.DroppingProxier? || s.manager.DroppingService? || s.manager.Finishing? ==>
      Snapshot(s, s.manager.snap) && s.manager.snap.deleting && SYNCER !in s.manager.snap.finalizers && SyncerGone(s)
  }

  ghost predicate Inv(s: State) {
    (s.binding.Some? ==> s.binding.value.version <= s.clock) && SyncerOk(s) && ManagerOk(s)
  }

  /** Writes that respect a deletion under way keep what the two processes rely on. */
  lemma PutKeepsInv(s: State, deleting: bool, finalizers: set<string>)
    requires Inv(s) && s.binding.Some?
    requires s.binding.value.deleting ==> deleting && (SYNCER !in s.binding.value.finalizers ==> SYNCER !in finalizers)
    ensures Inv(Put(s, deleting, finalizers))
    ensures Ending(s) ==> Ending(Put(s, deleting, finalizers))
    ensures SyncerGone(s) ==> SyncerGone(Put(s, deleting, finalizers))
  {
  }

  lemma LookKeepsInv(s: State)
    requires Inv(s) && s.syncer.Looking?
    ensures Inv(Look(s, s.syncer.snap, s.syncer.next, s.syncer.found))
    ensures var s' := Look(s, s.syncer.snap, s.syncer.next, s.syncer.found);
            s'.binding == s.binding && s'.guarded == s.guarded
  {
  }

  lemma SyncerStepKeepsInv(s: State, a: Action)
    requires Inv(s) && BySyncer(a)
    ensures Inv(SyncerStep(s, a)) && SyncerStep(s, a).guarded == s.guarded
    ensures SyncerGone(s) ==> SyncerGone(SyncerStep(s, a))
    ensures Ending(s) ==> Ending(SyncerStep(s, a))
  {
    match a {
      case SyncerAddsFinalizer(ok) =>
        if s.syncer.Adding? && UpToDate(s, s.syncer.snap) {
          PutKeepsInv(s, s.syncer.snap.deleting, s.syncer.snap.finalizers + {SYNCER});
        }
      case SyncerReleases(ok) =>
        if s.syncer.Releasing? && UpToDate(s, s.syncer.snap) {
          PutKeepsInv(s, s.syncer.snap.deleting, s.syncer.snap.finalizers - {SYNCER});
        }
      case SyncerLooks(ok) =>
        if s.syncer.Looking? {
          LookKeepsInv(s);
        }
      case _ =>
    }
  }

  lemma ManagerStartKeepsInv(s: State)
    requires Inv(s)
    ensures var s' := ManagerStep(s, ManagerStarts);
            && Inv(s') && s'.guarded == s.guarded && s'.syncer == s.syncer
            && (SyncerGone(s) ==> SyncerGone(s')) && (Ending(s) ==> Ending(s'))
  {
    if s.binding.Some? && !Deleting(s) {
      PutKeepsInv(s, false, s.binding.value.finalizers + {MANAGER});
    }
  }

  lemma ManagerReleaseKeepsInv(s: State, ok: bool)
    requires Inv(s)
    ensures var s' := ManagerStep(s, ManagerReleases(ok));
            && Inv(s') && s'.guarded == s.guarded && s'.syncer == s.syncer
            && (SyncerGone(s) ==> SyncerGone(s')) && (Ending(s) ==> Ending(s'))
  {
    if s.manager.Finishing? && UpToDate(s, s.manager.snap) {
      PutKeepsInv(s, s.manager.snap.deleting, s.manager.snap.finalizers - {MANAGER});
    }
  }

  lemma ManagerStepKeepsInv(s: State, a: Action)
    requires Inv(s) && ByManager(a)
    ensures Inv(ManagerStep(s, a)) && ManagerStep(s, a).guarded == s.guarded && ManagerStep(s, a).syncer == s.syncer
    ensures SyncerGone(s) ==> SyncerGone(ManagerStep(s, a))
    ensures Ending(s) ==> Ending(ManagerStep(s, a))
  {
    if a.ManagerStarts? {
      ManagerStartKeepsInv(s);
    } else if a.ManagerReleases? {
      ManagerReleaseKeepsInv(s, a.ok);
    }
  }

  lemma StepKeepsInv(s: State, a: Action)
    requires Inv(s)
    ensures Inv(Step(s, a))
    ensures SyncerGone(s) ==> SyncerGone(Step(s, a)) && Step(s, a).guarded == s.guarded
    ensures Ending(s) ==> Ending(Step(s, a))
  {
    if BySyncer(a) {
      SyncerStepKeepsInv(s, a);
    } else if ByManager(a) {
      ManagerStepKeepsInv(s, a);
    } else if a.RequestDeletion? && s.binding.Some? {
      PutKeepsInv(s, true, s.binding.value.finalizers);
    }
  }

  lemma {:induction false} TraceKeepsInv(states: seq<State>, actions: seq<Action>, i: nat)
    requires Trace(states, actions) && Initial(states[0]) && i < |states|
    ensures Inv(states[i])
  {
    if i > 0 {
      TraceKeepsInv(states, actions, i - 1);
      StepKeepsInv(states[i - 1], actions[i - 1]);
    }
  }

  /** The manager removes the syncer's deployment only while a deleting binding no longer has the syncer's finalizer. */
  lemma SyncerOutlivesItsFinalizer(states: seq<State>, actions: seq<Action>, i: nat)
    requires Trace(states, actions) && Initial(states[0]) && i < |actions|
    requires SyncerDeployment in states[i].deployed && SyncerDeployment !in states[i + 1].deployed
    ensures actions[i] == ManagerDropsSyncer(true)
    ensures states[i].binding.None? || (Deleting(states[i]) && SYNCER !in states[i].binding.value.finalizers)
  {
    TraceKeepsInv(states, actions, i);
    OnlyManagerDropsSyncer(states[i], actions[i]);
  }

  lemma OnlyManagerDropsSyncer(s: State, a: Action)
    requires SyncerDeployment in s.deployed && SyncerDeployment !in Step(s, a).deployed
    ensures a == ManagerDropsSyncer(true) && s.manager.DroppingSyncer?
  {
  }

  /** What one look of the pass can lead to. */
  lemma LookOutcome(s: State, snap: Binding, next: nat, found: bool)
    requires s.syncer == Looking(snap, next, found) && next < KINDS
    ensures var s' := Look(s, snap, next, found);
            && s'.binding == s.binding && s'.clock == s.clock
            && (s'.syncer.SyncerIdle? || s'.syncer.Looking? || s'.syncer == Releasing(snap))
            && (s'.syncer.Looking? ==>
                  && s'.syncer.snap == snap && s'.syncer.next == next + 1 < KINDS
                  && (found ==> s'.syncer.found) && (!s'.syncer.found ==> Things(s, ORDER[next]) == {})
                  && (s'.syncer.found && !found ==> next + 1 < FIRST_PHYSICAL))
            && (s'.syncer.Releasing? ==> next == KINDS - 1 && Things(s, ORDER[next]) == {})
  {
  }

  // ---------- The evidence of a clean pass ----------

  /** A look that finds nothing of its kind. */
  ghost predicate CleanLookAt(states: seq<State>, actions: seq<Action>, t: nat, snap: Binding, k: nat)
    requires t < |actions| < |states| && k < KINDS
  {
    states[t].syncer == Looking(snap, k, false) && actions[t] == SyncerLooks(true) && Things(states[t], ORDER[k]) == {}
  }

  /** Where the pass stands after so many clean looks. */
  function AfterLooks(snap: Binding, n: nat): SyncerPhase {
    if n < KINDS then Looking(snap, n, false) else Releasing(snap)
  }

  ghost predicate Rests(states: seq<State>, from: nat, to: nat, p: SyncerPhase)
    requires to < |states|
  {
    forall m :: from < m <= to ==> states[m].syncer == p
  }

  /** The moments of the first `n` looks of the pass that is under way at `now`, all of them clean. */
  ghost predicate Looks(states: seq<State>, actions: seq<Action>, times: seq<nat>, snap: Binding, n: nat, now: nat) {
    && |times| == n <= KINDS && now <= |actions| < |states|
    && (forall k :: 0 <= k < n ==> times[k] < now && CleanLookAt(states, actions, times[k], snap, k))
    && (forall k, l :: 0 <= k < l < n ==> times[k] < times[l])
    && (forall k :: 0 <= k < n ==>
          Rests(states, times[k], if k + 1 < n then times[k + 1] else now, AfterLooks(snap, k + 1)))
  }

  ghost predicate Seen(states: seq<State>, actions: seq<Action>, snap: Binding, n: nat, now: nat) {
    exists times :: Looks(states, actions, times, snap, n, now)
  }

  lemma SeenLater(states: seq<State>, actions: seq<Action>, snap: Binding, n: nat, now: nat)
    requires Seen(states, actions, snap, n, now) && now < |actions|
    requires n > 0 ==> states[now + 1].syncer == AfterLooks(snap, n)
    ensures Seen(states, actions, snap, n, now + 1)
  {
    var times :| Looks(states, actions, times, snap, n, now);
    forall k | 0 <= k < n
      ensures Rests(states, times[k], if k + 1 < n then times[k + 1] else now + 1, AfterLooks(snap, k + 1))
    {
      assert Rests(states, times[k], if k + 1 < n then times[k + 1] else now, AfterLooks(snap, k + 1));
    }
    assert Looks(states, actions, times, snap, n, now + 1);
  }

  lemma SeenMore(states: seq<State>, actions: seq<Action>, snap: Binding, n: nat, now: nat)
    requires Seen(states, actions, snap, n, now) && now < |actions| && n < KINDS
    requires CleanLookAt(states, actions, now, snap, n) && states[now + 1].syncer == AfterLooks(snap, n + 1)
    ensures Seen(states, actions, snap, n + 1, now + 1)
  {
    var times :| Looks(states, actions, times, snap, n, now);
    var longer := times + [now];
    forall k | 0 <= k < n + 1
      ensures Rests(states, longer[k], if k + 1 < n + 1 then longer[k + 1] else now + 1, AfterLooks(snap, k + 1))
    {
      if k < n {
        assert Rests(states, times[k], if k + 1 < n then times[k + 1] else now, AfterLooks(snap, k + 1));
      }
    }
    assert Looks(states, actions, longer, snap, n + 1, now + 1);
  }

  /** The pass that ended with the release of the finalizer at time `r`, and the moments of its looks. */
  ghost predicate ReleasingPass(states: seq<State>, actions: seq<Action>, times: seq<nat>, r: nat) {
    && r < |actions| < |states| && actions[r] == SyncerReleases(true) && states[r].syncer.Releasing?
    && states[r].syncer.snap.deleting
    && Looks(states, actions, times, states[r].syncer.snap, KINDS, r)
  }

  ghost predicate ReleasedBefore(states: seq<State>, actions: seq<Action>, now: nat) {
    exists times: seq<nat>, r: nat :: r < now && ReleasingPass(states, actions, times, r)
  }

  /** What a pass has already shown, at every moment of every trace. */
  ghost predicate Shown(states: seq<State>, actions: seq<Action>, i: nat)
    requires i < |states|
  {
    var s := states[i];
    && (s.syncer.Looking? && !s.syncer.found ==> Seen(states, actions, s.syncer.snap, s.syncer.next, i))
    && (s.syncer.Releasing? ==> Seen(states, actions, s.syncer.snap, KINDS, i))
    && (s.guarded && SyncerGone(s) ==> ReleasedBefore(states, actions, i))
  }

  lemma LookShows(states: seq<State>, actions: seq<Action>, i: nat)
    requires Trace(states, actions) && i < |actions| && Inv(states[i]) && Shown(states, actions, i)
    requires actions[i] == SyncerLooks(true) && states[i].syncer.Looking?
    ensures var s' := states[i + 1];
            && (s'.syncer.Looking? && !s'.syncer.found ==> Seen(states, actions, s'.syncer.snap, s'.syncer.next, i + 1))
            && (s'.syncer.Releasing? ==> Seen(states, actions, s'.syncer.snap, KINDS, i + 1))
  {
    var s := states[i];
    var s' := states[i + 1];
    assert s' == Look(s, s.syncer.snap, s.syncer.next, s.syncer.found);
    if (s'.syncer.Looking? && !s'.syncer.found) || s'.syncer.Releasing? {
      LookOutcome(s, s.syncer.snap, s.syncer.next, s.syncer.found);
      assert !s.syncer.found && Things(s, ORDER[s.syncer.next]) == {};
      SeenMore(states, actions, s.syncer.snap, s.syncer.next, i);
    }
  }

  lemma StepShowsPass(states: seq<State>, actions: seq<Action>, i: nat)
    requires Trace(states, actions) && i < |actions| && Inv(states[i]) && Shown(states, actions, i)
    ensures var s' := states[i + 1];
            && (s'.syncer.Looking? && !s'.syncer.found ==> Seen(states, actions, s'.syncer.snap, s'.syncer.next, i + 1))
            && (s'.syncer.Releasing? ==> Seen(states, actions, s'.syncer.snap, KINDS, i + 1))
  {
    var s := states[i];
    var s' := states[i + 1];
    assert s' == Step(s, actions[i]);
    if actions[i] == SyncerLooks(true) && s.syncer.Looking? {
      LookShows(states, actions, i);
    } else {
      PassOnlyMovesByLooking(s, actions[i]);
      if s'.syncer.Looking? && s'.syncer != s.syncer {
        assert Looks(states, actions, [], s'.syncer.snap, 0, i + 1);
      } else if s'.syncer.Looking? && !s'.syncer.found {
        SeenLater(states, actions, s.syncer.snap, s.syncer.next, i);
      } else if s'.syncer.Releasing? {
        SeenLater(states, actions, s.syncer.snap, KINDS, i);
      }
    }
  }

  lemma StepShows(states: seq<State>, actions: seq<Action>, i: nat)
    requires Trace(states, actions) && i < |actions| && Inv(states[i]) && Shown(states, actions, i)
    ensures Shown(states, actions, i + 1)
  {
    var s := states[i];
    var s' := states[i + 1];
    assert s' == Step(s, actions[i]);
    StepShowsPass(states, actions, i);
    if s'.guarded && SyncerGone(s') {
      if SyncerGone(s) {
        StepKeepsInv(s, actions[i]);
        var times: seq<nat>, r: nat :| r < i && ReleasingPass(states, actions, times, r);
        assert r < i + 1 && ReleasingPass(states, actions, times, r);
      } else {
        LosesFinalizer(s, actions[i]);
        var times :| Looks(states, actions, times, s.syncer.snap, KINDS, i);
        assert i < i + 1 && ReleasingPass(states, actions, times, i);
      }
    }
  }

  lemma PassOnlyMovesByLooking(s: State, a: Action)
    requires a != SyncerLooks(true) || !s.syncer.Looking?
    ensures var p := Step(s, a).syncer;
            p == s.syncer || p.SyncerIdle? || p.Adding? || (p.Looking? && p.next == 0 && !p.found)
  {
  }

  /** On a guarded binding only the syncer's own release takes its finalizer off. */
  lemma LosesFinalizer(s: State, a: Action)
    requires Inv(s) && !SyncerGone(s) && SyncerGone(Step(s, a)) && Step(s, a).guarded
    ensures s.syncer.Releasing? && s.syncer.snap.deleting && a == SyncerReleases(true)
  {
  }

  lemma {:induction false} AlwaysShown(states: seq<State>, actions: seq<Action>, i: nat)
    requires Trace(states, actions) && Initial(states[0]) && i < |states|
    ensures Shown(states, actions, i)
  {
    if i > 0 {
      AlwaysShown(states, actions, i - 1);
      TraceKeepsInv(states, actions, i - 1);
      StepShows(states, actions, i - 1);
    }
  }

  // ---------- Main results ----------

  /**
   A binding whose deletion was requested with the syncer's finalizer on disappears only after a
   deletion pass has seen every kind of thing in both clusters absent, one kind after the other.
   */
  lemma TeardownOrder(states: seq<State>, actions: seq<Action>, i: nat)
    requires Trace(states, actions) && Initial(states[0]) && i < |states|
    requires states[i].guarded && states[i].binding.None?
    ensures exists times: seq<nat>, r: nat :: r < i && ReleasingPass(states, actions, times, r) &&
              forall k: Kind :: SeenAbsent(states, times, r, k)
  {
    AlwaysShown(states, actions, i);
    var times: seq<nat>, r: nat :| r < i && ReleasingPass(states, actions, times, r);
    forall k: Kind ensures SeenAbsent(states, times, r, k) {
      PassSeesKind(states, actions, times, r, k);
    }
  }

  /** During the pass there is a moment at which nothing of the kind exists. */
  ghost predicate SeenAbsent(states: seq<State>, times: seq<nat>, r: nat, k: Kind) {
    exists t :: 0 <= t < r < |states| && |times| > 0 && times[0] <= t && SeenAbsentAt(states, t, k)
  }

  ghost predicate SeenAbsentAt(states: seq<State>, t: nat, k: Kind)
    requires t < |states|
  {
    states[t].syncer.Looking? && states[t].syncer.snap.deleting && Things(states[t], k) == {}
  }

  lemma PassSeesKind(states: seq<State>, actions: seq<Action>, times: seq<nat>, r: nat, k: Kind)
    requires ReleasingPass(states, actions, times, r)
    ensures SeenAbsent(states, times, r, k)
  {
    var t := times[Index(k)];
    assert CleanLookAt(states, actions, t, states[r].syncer.snap, Index(k));
    assert SeenAbsentAt(states, t, k);
    assert Index(k) > 0 ==> times[0] < t;
  }

  ghost predicate AllClean(s: State) {
    forall k: Kind :: Things(s, k) == {}
  }

  /** Something appears after the look at its kind and is still there at the last look. */
  ghost predicate Latecomer(states: seq<State>, k: Kind, x: string, m: nat, last: nat)
    requires m < last < |states|
  {
    x !in Things(states[m], k) && forall j :: m < j <= last ==> x in Things(states[j], k)
  }

  ghost predicate HasLatecomer(states: seq<State>, times: seq<nat>, last: nat)
    requires |times| == KINDS && last < |states|
  {
    exists k: Kind, x, m :: times[Index(k)] <= m < last && Latecomer(states, k, x, m, last)
  }

  /** Whatever is there now and was not there before must have come in between. */
  lemma {:induction false} Arrival(states: seq<State>, k: Kind, x: string, from: nat, last: nat) returns (m: nat)
    requires from <= last < |states| && x !in Things(states[from], k) && x in Things(states[last], k)
    ensures from <= m < last && Latecomer(states, k, x, m, last)
    decreases last - from
  {
    if x in Things(states[last - 1], k) {
      m := Arrival(states, k, x, from, last - 1);
    } else {
      m := last - 1;
    }
  }

  /** At its last look a pass of clean looks has a wholly clean state before it exactly if there is no latecomer. */
  lemma CleanAtLastLookIff(states: seq<State>, actions: seq<Action>, times: seq<nat>, r: nat)
    requires ReleasingPass(states, actions, times, r)
    ensures AllClean(states[times[KINDS - 1]]) <==> !HasLatecomer(states, times, times[KINDS - 1])
  {
    var last := times[KINDS - 1];
    if !AllClean(states[last]) {
      var k: Kind :| Things(states[last], k) != {};
      var x :| x in Things(states[last], k);
      assert CleanLookAt(states, actions, times[Index(k)], states[r].syncer.snap, Index(k));
      assert Index(k) < KINDS - 1 ==> times[Index(k)] < last;
      var m := Arrival(states, k, x, times[Index(k)], last);
    } else {
      forall k: Kind, x, m | times[Index(k)] <= m < last ensures !Latecomer(states, k, x, m, last) {
        assert x !in Things(states[last], k);
      }
    }
  }

  /**
   A guarded binding disappears only after a pass whose last look met a state with everything gone,
   unless something came after the look at its kind and stayed until the last look.
   */
  lemma DisappearsOnlyWhenClean(states: seq<State>, actions: seq<Action>, i: nat)
    requires Trace(states, actions) && Initial(states[0]) && i < |states|
    requires states[i].guarded && states[i].binding.None?
    ensures exists times: seq<nat>, r: nat :: r < i && ReleasingPass(states, actions, times, r) &&
              (AllClean(states[times[KINDS - 1]]) <==> !HasLatecomer(states, times, times[KINDS - 1]))
  {
    AlwaysShown(states, actions, i);
    var times: seq<nat>, r: nat :| r < i && ReleasingPass(states, actions, times, r);
    CleanAtLastLookIff(states, actions, times, r);
  }

  /** No kind gains anything between its own look and the last one. */
  ghost predicate NoArrivals(states: seq<State>, times: seq<nat>, last: nat)
    requires |times| == KINDS && last < |states|
  {
    forall k: Kind, m :: times[Index(k)] <= m < last ==> Keeps(states, m, k)
  }

  ghost predicate Keeps(states: seq<State>, m: nat, k: Kind)
    requires m + 1 < |states|
  {
    Things(states[m + 1], k) <= Things(states[m], k)
  }

  lemma NoArrivalsNoLatecomer(states: seq<State>, times: seq<nat>, last: nat)
    requires |times| == KINDS && last < |states| && NoArrivals(states, times, last)
    ensures !HasLatecomer(states, times, last)
  {
    forall k: Kind, x, m | times[Index(k)] <= m < last ensures !Latecomer(states, k, x, m, last) {
      assert Keeps(states, m, k);
    }
  }

  // ---------- Writes ----------

  /**
   On every interleaving, a finalizer is written only to the very binding that was read: anything that came in between
   makes the write fail.
   */
  lemma WritesWhatWasRead(states: seq<State>, actions: seq<Action>, i: nat)
    requires Trace(states, actions) && Initial(states[0]) && i < |actions|
    requires states[i + 1].binding != states[i].binding
    ensures actions[i].SyncerReleases? ==>
              && states[i].syncer.Releasing? && states[i].binding == Some(states[i].syncer.snap)
              && states[i].syncer.snap.deleting
    ensures actions[i].SyncerAddsFinalizer? ==>
              && states[i].syncer.Adding? && states[i].binding == Some(states[i].syncer.snap)
              && !states[i].syncer.snap.deleting
    ensures actions[i].ManagerReleases? ==>
              && states[i].manager.Finishing? && states[i].binding == Some(states[i].manager.snap)
              && states[i].manager.snap.deleting && SYNCER !in states[i].manager.snap.finalizers
  {
    TraceKeepsInv(states, actions, i);
  }

  // ---------- Before the deletion ----------

  /** As long as a binding is not being deleted, the syncer puts its finalizer on and leaves the others. */
  lemma SyncerGuards(s: State)
    requires s.syncer.SyncerIdle? && s.binding.Some? && !s.binding.value.deleting
    ensures var s' := Step(Step(s, SyncerStarts), SyncerAddsFinalizer(true));
            && s'.binding.Some? && s'.binding.value.finalizers == s.binding.value.finalizers + {SYNCER}
            && s'.things == s.things
            && (SYNCER in s.binding.value.finalizers ==> s' == s)
  {
    if SYNCER in s.binding.value.finalizers {
      assert s.binding.value.finalizers + {SYNCER} == s.binding.value.finalizers;
    }
  }

  /** And the manager puts its own on, and then deploys everything. */
  lemma ManagerProvides(s: State)
    requires s.manager.ManagerIdle? && s.binding.Some? && !s.binding.value.deleting
    ensures var s1 := Step(s, ManagerStarts);
            var s2 := if MANAGER in s.binding.value.finalizers then s1 else Step(s1, ManagerStarts);
            var s3 := Step(s2, ManagerDeploys(true));
            && s3.binding.Some? && s3.binding.value.finalizers == s.binding.value.finalizers + {MANAGER}
            && s3.deployed == {SyncerDeployment, ProxierDeployment, ProxierService} && s3.manager.ManagerIdle?
  {
    if MANAGER in s.binding.value.finalizers {
      assert s.binding.value.finalizers + {MANAGER} == s.binding.value.finalizers;
    }
  }
}
