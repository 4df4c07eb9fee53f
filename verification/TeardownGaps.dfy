/** What the teardown does not guarantee: runs in which the binding disappears with something left behind. */
module TeardownGaps {
  import opened Wrappers
  import opened BindingTeardown

  /** A run so far, in no state of which everything is gone. */
  ghost predicate NeverClean(states: seq<State>, actions: seq<Action>) {
    && Trace(states, actions) && Initial(states[0])
    && forall i :: 0 <= i < |states| ==> !AllClean(states[i])
  }

  lemma Extended(states: seq<State>, actions: seq<Action>, a: Action)
    returns (states': seq<State>, actions': seq<Action>)
    requires NeverClean(states, actions) && !AllClean(Step(states[|states| - 1], a))
    ensures NeverClean(states', actions') && |states'| == |states| + 1
    ensures states'[|states|] == Step(states[|states| - 1], a)
  {
    states', actions' := states + [Step(states[|states| - 1], a)], actions + [a];
    forall i | 0 <= i < |actions'| ensures states'[i + 1] == Step(states'[i], actions'[i]) {
      if i < |actions| {
        assert states[i + 1] == Step(states[i], actions[i]);
      }
    }
  }

  /** The node is there, and nothing else is except perhaps a volume: the rest of the pass will not notice the node. */
  ghost predicate Passing(s: State, snap: Binding, next: nat, volumes: set<string>) {
    && s.syncer == Looking(snap, next, false) && s.binding == Some(snap) && s.manager.ManagerIdle? && s.guarded
    && Things(s, VirtualNodes) == {"node"} && Things(s, PhysicalPVs) == volumes
    && forall k :: 0 < k < KINDS - 1 ==> Things(s, ORDER[k]) == {}
  }

  lemma PassingOn(s: State, snap: Binding, next: nat, volumes: set<string>)
    requires Passing(s, snap, next, volumes) && 0 < next < KINDS - 1
    ensures Passing(Step(s, SyncerLooks(true)), snap, next + 1, volumes) && !AllClean(Step(s, SyncerLooks(true)))
  {
    var s' := Step(s, SyncerLooks(true));
    assert s' == Look(s, snap, next, false);
    assert Things(s', VirtualNodes) != {};
  }

  const DOOMED := Binding(true, {MANAGER, SYNCER}, 1)

  const REQUESTED :=
    State(Some(DOOMED), map[PhysicalPVs := {"volume"}], {}, ALL_PARTS, SyncerIdle, ManagerIdle, true, 1)

  lemma DeletionRequested() returns (states: seq<State>, actions: seq<Action>)
    ensures NeverClean(states, actions) && states[|states| - 1] == REQUESTED
  {
    var s0 := REQUESTED.(binding := Some(Binding(false, {MANAGER, SYNCER}, 0)), guarded := false, clock := 0);
    assert Things(s0, PhysicalPVs) != {} && Things(REQUESTED, PhysicalPVs) != {};
    assert Step(s0, RequestDeletion) == REQUESTED;
    states, actions := Extended([s0], [], RequestDeletion);
  }

  /** The syncer sees that there are no virtual nodes. */
  lemma FirstLook() returns (states: seq<State>, actions: seq<Action>)
    ensures NeverClean(states, actions) && states[|states| - 1] == REQUESTED.(syncer := Looking(DOOMED, 1, false))
  {
    states, actions := DeletionRequested();
    var s1 := REQUESTED.(syncer := Looking(DOOMED, 0, false));
    var s2 := REQUESTED.(syncer := Looking(DOOMED, 1, false));
    assert Things(s1, PhysicalPVs) != {} && Things(s2, PhysicalPVs) != {};
    assert Step(REQUESTED, SyncerStarts) == s1;
    states, actions := Extended(states, actions, SyncerStarts);
    assert Step(s1, SyncerLooks(true)) == s2;
    states, actions := Extended(states, actions, SyncerLooks(true));
  }

  /** Then one appears, while a volume is still there. */
  lemma NodeAppears() returns (states: seq<State>, actions: seq<Action>)
    ensures NeverClean(states, actions) && Passing(states[|states| - 1], DOOMED, 1, {"volume"})
  {
    states, actions := FirstLook();
    var s := states[|states| - 1];
    var s' := s.(things := s.things[VirtualNodes := {"node"}]);
    assert Step(s, Others(VirtualNodes, {"node"})) == s' && Things(s', VirtualNodes) != {};
    states, actions := Extended(states, actions, Others(VirtualNodes, {"node"}));
  }

  /** Just before the look at the volumes the last one goes, so the finalizer is released. */
  lemma VolumeGoes(states: seq<State>, actions: seq<Action>) returns (states': seq<State>, actions': seq<Action>)
    requires NeverClean(states, actions) && Passing(states[|states| - 1], DOOMED, KINDS - 1, {"volume"})
    ensures NeverClean(states', actions')
    ensures var s := states'[|states'| - 1];
            && s.binding == Some(Binding(true, {MANAGER}, s.clock)) && s.manager.ManagerIdle? && s.guarded
            && Things(s, VirtualNodes) == {"node"}
  {
    var s := states[|states| - 1];
    var s1 := s.(things := s.things[PhysicalPVs := {}]);
    var s2 := s1.(syncer := Releasing(DOOMED));
    var s3 := Step(s2, SyncerReleases(true));
    assert Step(s, Others(PhysicalPVs, {})) == s1 && Things(s1, VirtualNodes) != {};
    states', actions' := Extended(states, actions, Others(PhysicalPVs, {}));
    assert Step(s1, SyncerLooks(true)) == s2 && Things(s2, VirtualNodes) != {};
    states', actions' := Extended(states', actions', SyncerLooks(true));
    assert {MANAGER, SYNCER} - {SYNCER} == {MANAGER} by { assert SYNCER[28] != MANAGER[28]; }
    assert s3.things == s2.things && Things(s3, VirtualNodes) != {};
    states', actions' := Extended(states', actions', SyncerReleases(true));
  }

  /** With the finalizer off the manager finishes the deletion; the node stays. */
  lemma ManagerFinishes(s: State)
    requires s.binding == Some(Binding(true, {MANAGER}, s.clock)) && s.manager.ManagerIdle?
    ensures var s1 := Step(s, ManagerStarts);
            var s2 := Step(s1, ManagerDropsSyncer(true));
            var s3 := Step(s2, ManagerDropsProxier(true));
            var s4 := Step(s3, ManagerDropsService(true));
            var s5 := Step(s4, ManagerReleases(true));
            && s1.things == s2.things == s3.things == s4.things == s5.things == s.things
            && s5.binding.None? && s5.guarded == s.guarded
  {
    var snap := s.binding.value;
    assert SYNCER[28] != MANAGER[28];
    var s1 := Step(s, ManagerStarts);
    assert s1 == s.(manager := DroppingSyncer(snap));
    var s4 := Step(Step(Step(s1, ManagerDropsSyncer(true)), ManagerDropsProxier(true)), ManagerDropsService(true));
    assert s4.manager == Finishing(snap) && s4.binding == s.binding;
    assert {MANAGER} - {MANAGER} == {};
  }

  lemma ManagerRuns(states: seq<State>, actions: seq<Action>) returns (states': seq<State>, actions': seq<Action>)
    requires NeverClean(states, actions)
    requires var s := states[|states| - 1];
             && s.binding == Some(Binding(true, {MANAGER}, s.clock)) && s.manager.ManagerIdle?
             && Things(s, VirtualNodes) == {"node"}
    ensures NeverClean(states', actions')
    ensures states'[|states'| - 1].binding.None? && states'[|states'| - 1].guarded == states[|states| - 1].guarded
  {
    var s := states[|states| - 1];
    ManagerFinishes(s);
    forall s': State | s'.things == s.things ensures !AllClean(s') {
      assert Things(s', VirtualNodes) == {"node"};
    }
    states', actions' := Extended(states, actions, ManagerStarts);
    states', actions' := Extended(states', actions', ManagerDropsSyncer(true));
    states', actions' := Extended(states', actions', ManagerDropsProxier(true));
    states', actions' := Extended(states', actions', ManagerDropsService(true));
    states', actions' := Extended(states', actions', ManagerReleases(true));
  }

  /**
   One state with everything gone is not guaranteed: a run in which the binding disappears and there never was one.
   */
  lemma LateNodeEscapes() returns (states: seq<State>, actions: seq<Action>)
    ensures Trace(states, actions) && Initial(states[0])
    ensures states[|states| - 1].guarded && states[|states| - 1].binding.None?
    ensures forall i :: 0 <= i < |states| ==> !AllClean(states[i])
  {
    states, actions := NodeAppears();
    for next := 1 to KINDS - 1
      invariant NeverClean(states, actions) && Passing(states[|states| - 1], DOOMED, next, {"volume"})
    {
      PassingOn(states[|states| - 1], DOOMED, next, {"volume"});
      states, actions := Extended(states, actions, SyncerLooks(true));
    }
    states, actions := VolumeGoes(states, actions);
    states, actions := ManagerRuns(states, actions);
  }

  /**
   The guard is needed: a binding deleted before the syncer put its finalizer on disappears with everything still
   there.
   */
  lemma UnguardedTeardownLeavesThings(things: map<Kind, set<string>>)
    ensures var bound := Binding(false, {MANAGER}, 0);
            var s0 := State(Some(bound), things, {}, ALL_PARTS, SyncerIdle, ManagerIdle, false, 0);
            var s1 := Step(Step(Step(s0, RequestDeletion), ManagerStarts), ManagerDropsSyncer(true));
            var s2 := Step(Step(Step(s1, ManagerDropsProxier(true)), ManagerDropsService(true)), ManagerReleases(true));
            Initial(s0) && s2.binding.None? && s2.things == things
  {
    var s0 := State(Some(Binding(false, {MANAGER}, 0)), things, {}, ALL_PARTS, SyncerIdle, ManagerIdle, false, 0);
    assert Step(s0, RequestDeletion) == s0.(binding := Some(Binding(true, {MANAGER}, 1)), clock := 1)
      by { assert SYNCER[28] != MANAGER[28]; }
    ManagerFinishes(Step(s0, RequestDeletion));
  }
}
