/** The deletion handlers of syncer and manager, each without interruption, as runs of the machine. */
module TeardownHandlers {
  import opened Wrappers
  import opened BindingTeardown

  function Run(s: State, actions: seq<Action>): State {
    if actions == [] then s else Step(Run(s, actions[..|actions| - 1]), actions[|actions| - 1])
  }

  lemma RunSnoc(s: State, actions: seq<Action>, a: Action)
    ensures Run(s, actions + [a]) == Step(Run(s, actions), a)
  {
    assert (actions + [a])[..|actions|] == actions;
  }

  lemma {:induction false} RunConcat(s: State, first: seq<Action>, second: seq<Action>)
    ensures Run(s, first + second) == Run(Run(s, first), second)
  {
    if second == [] {
      assert first + second == first;
    } else {
      var init, last := second[..|second| - 1], second[|second| - 1];
      RunConcat(s, first, init);
      RunSnoc(s, first + init, last);
      RunSnoc(Run(s, first), init, last);
      assert second == init + [last] && first + second == (first + init) + [last];
    }
  }

  /** A clean look leads on, and the last one to the release of the finalizer. */
  lemma CleanLook(s: State, snap: Binding, next: nat)
    requires s.syncer == Looking(snap, next, false) && next < KINDS
    requires Things(s, ORDER[next]) == {} && SYNCER in snap.finalizers
    ensures Look(s, snap, next, false).syncer == if next + 1 < KINDS then Looking(snap, next + 1, false)
            else Releasing(snap)
  {
  }

  /** A look may sweep the kind it looks at, and nothing that comes later. */
  lemma LookLeavesTheRest(s: State, snap: Binding, next: nat, found: bool, k: nat)
    requires next < k < KINDS
    ensures Things(Look(s, snap, next, found), ORDER[k]) == Things(s, ORDER[k])
  {
  }

  /** Every list succeeds and is empty. */
  ghost predicate AllAbsent(s: State, listOk: map<Kind, bool>) {
    forall k: Kind :: Things(s, k) == {} && k in listOk && listOk[k]
  }

  /** The pass gets through the virtual objects: there are no virtual nodes, and the lists succeed. */
  ghost predicate SeesVirtual(s: State, listOk: map<Kind, bool>) {
    && Things(s, VirtualNodes) == {}
    && forall k: Kind :: k in {VirtualNodes, FakePods, VirtualConfigMaps, VirtualSecrets, VirtualPVs, VirtualPVCs} ==>
         k in listOk && listOk[k]
  }

  predicate IsMarkedKind(k: Kind) {
    k == VirtualConfigMaps || k == VirtualSecrets || k == VirtualPVs || k == VirtualPVCs
  }

  /** Where an uninterrupted pass that began in `before` can stand. */
  ghost predicate OnPass(before: State, snap: Binding, listOk: map<Kind, bool>, s: State) {
    && s.binding == Some(snap) && s.clock == before.clock
    && (s.syncer.SyncerIdle? || s.syncer == Releasing(snap) ||
        (s.syncer.Looking? && s.syncer.snap == snap && s.syncer.next < KINDS &&
         (s.syncer.found ==> s.syncer.next < FIRST_PHYSICAL)))
    && (s.syncer.Looking? ==> forall k :: s.syncer.next <= k < KINDS ==>
        Things(s, ORDER[k]) == Things(before, ORDER[k]))
    && (s.syncer.Looking? && !s.syncer.found ==> forall k :: 0 <= k < s.syncer.next ==> Things(before, ORDER[k]) == {})
    && (s.syncer.Releasing? ==> AllClean(before))
    && (SYNCER in snap.finalizers && AllAbsent(before, listOk) ==>
        !s.syncer.SyncerIdle? && (s.syncer.Looking? ==> !s.syncer.found))
    && (SeesVirtual(before, listOk) ==> s.syncer.Looking? || SweptUpTo(before, s, FIRST_PHYSICAL))
    && (SeesVirtual(before, listOk) && s.syncer.Looking? ==>
          SweptUpTo(before, s, if s.syncer.next < FIRST_PHYSICAL then s.syncer.next else FIRST_PHYSICAL))
  }

  /** The virtual objects looked at so far have been deleted or marked. */
  ghost predicate SweptUpTo(before: State, s: State, n: nat) {
    && (forall k: Kind, x :: IsMarkedKind(k) && Index(k) < n && x in Things(before, k) ==> Mark(k, x) in s.marked)
    && (FAKE_PODS < n ==> Things(s, FakePods) == {})
  }

  lemma StaysOnPass(before: State, snap: Binding, listOk: map<Kind, bool>, s: State, ok: bool)
    requires OnPass(before, snap, listOk, s) && s.syncer.Looking?
    requires ok == (ORDER[s.syncer.next] in listOk && listOk[ORDER[s.syncer.next]])
    ensures var s' := SyncerStep(s, SyncerLooks(ok));
            OnPass(before, snap, listOk, s') && (s'.syncer.Looking? ==> s'.syncer.next == s.syncer.next + 1)
  {
    var next, found := s.syncer.next, s.syncer.found;
    LookOutcome(s, snap, next, found);
    forall k | next < k < KINDS ensures Things(Look(s, snap, next, found), ORDER[k]) == Things(s, ORDER[k]) {
      LookLeavesTheRest(s, snap, next, found, k);
    }
    if SyncerStep(s, SyncerLooks(ok)).syncer.Releasing? {
      forall k: Kind ensures Things(before, k) == {} {
        assert Things(before, ORDER[Index(k)]) == {};
      }
    }
    if SYNCER in snap.finalizers && AllAbsent(before, listOk) {
      assert Things(before, ORDER[next]) == {};
      CleanLook(s, snap, next);
    }
    if SeesVirtual(before, listOk) {
      LookSweeps(before, snap, listOk, s);
    }
  }

  lemma LookSweeps(before: State, snap: Binding, listOk: map<Kind, bool>, s: State)
    requires OnPass(before, snap, listOk, s) && s.syncer.Looking? && SeesVirtual(before, listOk)
    ensures var next := s.syncer.next;
            var ok := ORDER[next] in listOk && listOk[ORDER[next]];
            var s' := SyncerStep(s, SyncerLooks(ok));
            && (next < FIRST_PHYSICAL ==> ok && SweptUpTo(before, s', next + 1))
            && (next < FIRST_PHYSICAL - 1 ==> s'.syncer.Looking?)
            && (next >= FIRST_PHYSICAL ==> SweptUpTo(before, s', FIRST_PHYSICAL))
  {
    var next := s.syncer.next;
    if next < FIRST_PHYSICAL {
      assert Things(s, ORDER[next]) == Things(before, ORDER[next]);
      var s' := Look(s, snap, next, s.syncer.found);
      forall k: Kind, x | IsMarkedKind(k) && Index(k) < next + 1 && x in Things(before, k)
        ensures Mark(k, x) in s'.marked
      {
        if Index(k) == next {
          assert Mark(k, x) in Marks(ORDER[next], Things(s, ORDER[next]));
        }
      }
    }
  }

  class Syncer {
    var state: State

    method LookOnce(ok: bool)
      requires state.syncer.Looking? && state.syncer.next < KINDS
      modifies this
      ensures state == SyncerStep(old(state), SyncerLooks(ok))
    {
      var Looking(snap, next, found) := state.syncer;
      var kind := ORDER[next];
      var names := Things(state, kind);
      if !ok {
        state := state.(syncer := SyncerIdle);
      } else if kind.VirtualNodes? || next >= FIRST_PHYSICAL {
        if names != {} {
          state := state.(syncer := SyncerIdle);
        } else if next + 1 < KINDS {
          state := state.(syncer := Looking(snap, next + 1, found));
        } else if SYNCER in snap.finalizers {
          state := state.(syncer := Releasing(snap));
        } else {
          state := state.(syncer := SyncerIdle);
        }
      } else {
        found := found || names != {};
        if kind.FakePods? {
          state := state.(things := state.things[FakePods := {}]);
        } else {
          MarkAll(kind, names);
        }
        if next + 1 == FIRST_PHYSICAL && found {
          state := state.(syncer := SyncerIdle);
        } else {
          state := state.(syncer := Looking(snap, next + 1, found));
        }
      }
    }

    /** Puts the deletion mark on every object found. */
    method MarkAll(kind: Kind, names: set<string>)
      modifies this
      ensures state == old(state).(marked := old(state).marked + Marks(kind, names))
    {
      var rest := names;
      while rest != {}
        invariant rest <= names
        invariant state == old(state).(marked := old(state).marked + Marks(kind, names - rest))
        decreases |rest|
      {
        var x :| x in rest;
        state := state.(marked := state.marked + {Mark(kind, x)});
        assert Marks(kind, names - (rest - {x})) == Marks(kind, names - rest) + {Mark(kind, x)};
        rest := rest - {x};
      }
      assert names - {} == names;
    }

    /** Handles the deletion; `listOk` and `updateOk` say which API calls succeed, `trace` lists what was done. */
    method HandleDeletion(listOk: map<Kind, bool>, updateOk: bool) returns (trace: seq<Action>)
      requires state.syncer.SyncerIdle? && Deleting(state)
      modifies this
      ensures state == Run(old(state), trace)
      ensures state.syncer.SyncerIdle?
      ensures state.binding != old(state).binding ==>
              updateOk && forall k: Kind :: Things(old(state), k) == {}
      ensures var finalizers := old(state).binding.value.finalizers;
              updateOk && SYNCER in finalizers && AllAbsent(old(state), listOk) ==>
                if finalizers == {SYNCER} then state.binding.None?
                else state.binding == Some(Binding(true, finalizers - {SYNCER}, old(state).clock + 1))
      ensures SeesVirtual(old(state), listOk) ==>
              && Things(state, FakePods) == {}
              && forall k: Kind, x :: IsMarkedKind(k) && x in Things(old(state), k) ==> Mark(k, x) in state.marked
    {
      var snap := state.binding.value;
      RunSnoc(old(state), [], SyncerStarts);
      trace := [] + [SyncerStarts];
      state := state.(syncer := Looking(snap, 0, false));
      ghost var before := state;
      var looks := LookThrough(snap, listOk);
      RunConcat(old(state), trace, looks);
      trace := trace + looks;
      PassResult(old(state), before, snap, listOk, state);
      if state.syncer.Releasing? {
        RunSnoc(old(state), trace, SyncerReleases(updateOk));
        trace := trace + [SyncerReleases(updateOk)];
        Release(snap, updateOk);
      }
    }

    /** Looks at one kind after the other, until the pass ends. */
    method LookThrough(snap: Binding, listOk: map<Kind, bool>) returns (trace: seq<Action>)
      requires state.syncer == Looking(snap, 0, false) && state.binding == Some(snap)
      modifies this
      ensures state == Run(old(state), trace)
      ensures OnPass(old(state), snap, listOk, state) && !state.syncer.Looking?
    {
      trace := [];
      while state.syncer.Looking?
        invariant state == Run(old(state), trace)
        invariant OnPass(old(state), snap, listOk, state)
        decreases if state.syncer.Looking? then KINDS - state.syncer.next else 0
      {
        var kind := ORDER[state.syncer.next];
        var ok := kind in listOk && listOk[kind];
        RunSnoc(old(state), trace, SyncerLooks(ok));
        StaysOnPass(old(state), snap, listOk, state, ok);
        LookOnce(ok);
        trace := trace + [SyncerLooks(ok)];
      }
    }

    /** Takes the syncer's finalizer off the binding it has read. */
    method Release(snap: Binding, ok: bool)
      requires state.syncer == Releasing(snap) && state.binding == Some(snap) && snap.deleting
      modifies this
      ensures state == SyncerStep(old(state), SyncerReleases(ok))
      ensures state.syncer.SyncerIdle? && state.things == old(state).things && state.marked == old(state).marked
      ensures !ok ==> state.binding == old(state).binding
      ensures ok && snap.finalizers <= {SYNCER} ==> state.binding.None?
      ensures ok && !(snap.finalizers <= {SYNCER}) ==>
              state.binding == Some(Binding(true, snap.finalizers - {SYNCER}, old(state).clock + 1))
    {
      if ok {
        state := Put(state, snap.deleting, snap.finalizers - {SYNCER});
      }
      state := state.(syncer := SyncerIdle);
    }
  }

  /** What the end of a pass says about the state in which it began. */
  lemma PassResult(start: State, before: State, snap: Binding, listOk: map<Kind, bool>, s: State)
    requires OnPass(before, snap, listOk, s) && !s.syncer.Looking?
    requires before == start.(syncer := Looking(snap, 0, false))
    ensures s.syncer.Releasing? ==> AllClean(start)
    ensures SYNCER in snap.finalizers && AllAbsent(start, listOk) ==>
              s.syncer == Releasing(snap) && s.clock == start.clock
    ensures SeesVirtual(start, listOk) ==> SweptUpTo(start, s, FIRST_PHYSICAL)
  {
    assert forall k: Kind :: Things(before, k) == Things(start, k);
  }

  class Manager {
    var state: State

    /** Waits for the syncer, then removes the deployments in order and only then the manager's own finalizer. */
    method HandleDeletion(syncerOk: bool, proxierOk: bool, serviceOk: bool, updateOk: bool) returns (trace: seq<Action>)
      requires state.manager.ManagerIdle? && Deleting(state)
      modifies this
      ensures state == Run(old(state), trace) && state.manager.ManagerIdle?
      ensures var finalizers := old(state).binding.value.finalizers;
              if SYNCER in finalizers then state == old(state)
              else
                && state.things == old(state).things
                && (SyncerDeployment in state.deployed <==> SyncerDeployment in old(state).deployed && !syncerOk)
                && (ProxierDeployment in state.deployed <==>
                      ProxierDeployment in old(state).deployed && !(syncerOk && proxierOk))
                && (ProxierService in state.deployed <==>
                      ProxierService in old(state).deployed && !(syncerOk && proxierOk && serviceOk))
                && (if !(syncerOk && proxierOk && serviceOk && updateOk) then state.binding == old(state).binding
                    else if finalizers <= {MANAGER} then state.binding.None?
                    else state.binding == Some(Binding(true, finalizers - {MANAGER}, old(state).clock + 1)))
    {
      trace := [];
      var snap := state.binding.value;
      if SYNCER in snap.finalizers {
        return;
      }
      RunSnoc(old(state), trace, ManagerStarts);
      state := state.(manager := DroppingSyncer(snap));
      trace := trace + [ManagerStarts];
      RunSnoc(old(state), trace, ManagerDropsSyncer(syncerOk));
      trace := trace + [ManagerDropsSyncer(syncerOk)];
      if !syncerOk {
        state := state.(manager := ManagerIdle);
        return;
      }
      state := state.(deployed := state.deployed - {SyncerDeployment}, manager := DroppingProxier(snap));
      RunSnoc(old(state), trace, ManagerDropsProxier(proxierOk));
      trace := trace + [ManagerDropsProxier(proxierOk)];
      if !proxierOk {
        state := state.(manager := ManagerIdle);
        return;
      }
      state := state.(deployed := state.deployed - {ProxierDeployment}, manager := DroppingService(snap));
      RunSnoc(old(state), trace, ManagerDropsService(serviceOk));
      trace := trace + [ManagerDropsService(serviceOk)];
      if !serviceOk {
        state := state.(manager := ManagerIdle);
        return;
      }
      state := state.(deployed := state.deployed - {ProxierService}, manager := Finishing(snap));
      RunSnoc(old(state), trace, ManagerReleases(updateOk));
      trace := trace + [ManagerReleases(updateOk)];
      if updateOk {
        state := Put(state, snap.deleting, snap.finalizers - {MANAGER});
      }
      state := state.(manager := ManagerIdle);
    }
  }
}
