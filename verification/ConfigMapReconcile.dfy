/** One whole reconcile of the ConfigMap controller, in place and as a single step. */
module ConfigMapReconcile {
  import opened Wrappers
  import opened SyncedObjects
  import opened ConfigMapSync

  /** Which API calls of a reconcile succeed, and whether the cache still shows a copy that is gone. */
  datatype Calls = Calls(getOk: bool, registerOk: bool, checkOk: bool, staleCache: bool, createOk: bool,
                         deleteOk: bool, removeOk: bool)

  const ALL_SUCCEED := Calls(true, true, true, false, true, true, true)

  /** A reconcile in which nothing fails and nothing comes in between, as one step. */
  function Pass(names: Names, s: State, c: string): State {
    match s.stored
    case None => s.(needs := s.needs - {c})
    case Some(snap) =>
      if !Managed(snap.obj, c) && c !in s.needs then s
      else if c in s.needs && LacksRegistration(snap.obj, c) then
        var r := Joined(names, snap.obj, c);
        At(if r.Success? then Put(s, r.value, snap.deleting) else s, c, Idle)
      else if Get(snap.obj.annotations, PHYSICAL_NAME) == "" then s
      else if GivenUp(names, snap, c) then Released(s, snap, c)
      else At(s.(copies := s.copies + {CopyOf(snap, c)}), c, Idle)
  }

  /** The copy that the object names and the marks of the cluster are gone. */
  function Released(s: State, snap: Stored, c: string): State {
    var s' := s.(needs := s.needs - {c}, copies := s.copies - {CopyOf(snap, c)});
    At(Put(s', Unregistered(snap.obj, c), snap.deleting), c, Idle)
  }

  /** The state without the progress of the reconciles. */
  function Lasting(s: State): State {
    s.(phases := map[])
  }

  function Decided(names: Names, s: State, snap: Stored, c: string): State {
    if GivenUp(names, snap, c) then Released(s, snap, c) else s.(copies := s.copies + {CopyOf(snap, c)})
  }

  /** What the fetch decides is what the pass does. */
  lemma PassAfterFetch(names: Names, s: State, c: string)
    requires PhaseOf(s, c).Idle?
    ensures var f := AfterFetch(s, c);
            && (PhaseOf(f, c).Idle? ==> Lasting(f) == Lasting(Pass(names, s, c)))
            && (PhaseOf(f, c).Registering? ==>
                  Lasting(ReconcilerStep(names, f, WriteRegistration(c, true))) == Lasting(Pass(names, s, c)))
            && (PhaseOf(f, c).Fetched? ==>
                  && f.stored == Some(PhaseOf(f, c).snap)
                  && Lasting(Decided(names, f, PhaseOf(f, c).snap, c)) == Lasting(Pass(names, s, c)))
  {
  }

  /** A pass over an object that is given up leaves an orphan exactly if the cluster has a copy of another name. */
  lemma PassOrphansIff(names: Names, s: State, c: string)
    requires Inv(s) && s.stored.Some? && Managed(s.stored.value.obj, c) && NameOf(s.stored.value.obj) != ""
    requires GivenUp(names, s.stored.value, c)
    ensures NoOrphans(Pass(names, s, c)) <==>
            forall copy :: copy in s.copies && copy.cluster == c ==> copy.name == NameOf(s.stored.value.obj)
  {
    var snap := s.stored.value;
    CountedHolder(snap.obj, c);
    var holders :| Counts(snap.obj, holders);
    UnregisterCounts(snap.obj, holders, c);
    var s' := Pass(names, s, c);
    assert s' == Released(s, snap, c);
    forall d | d != c && Holds(s, d) ensures Holds(s', d) {
      assert d in holders - {c};
      assert Finalizer(d) in Unregistered(snap.obj, c).finalizers;
    }
    assert !Holds(s', c);
    forall copy | copy in s.copies && copy.cluster == c && copy.name != NameOf(snap.obj) ensures copy in s'.copies {
    }
    forall copy | copy in s'.copies && copy.cluster == c ensures copy in s.copies && copy.name != NameOf(snap.obj) {
      assert copy == Copy(c, copy.name);
    }
  }

  /**
   What a pass does with a registered object: while the object is not being deleted and does not carry the mark of the
   cluster's own binding, the copy is there afterwards and nothing else has changed; otherwise copy and marks go.
   */
  lemma PassDeliversUnlessGivenUp(names: Names, s: State, c: string)
    requires Inv(s) && s.stored.Some? && NameOf(s.stored.value.obj) != "" && Managed(s.stored.value.obj, c)
    ensures var Stored(o, deleting, version) := s.stored.value;
            var givenUp := deleting ||
              (c in names.bindings && Get(o.annotations, "kubeocean.io/deleting-" + c) == names.bindings[c] &&
               "kubeocean.io/deleting-" + c in o.annotations);
            var copy := Copy(c, Get(o.annotations, "kubeocean.io/physical-name"));
            var s' := Pass(names, s, c);
            if givenUp then copy !in s'.copies && !Holds(s', c) && c !in s'.needs
            else s'.copies == s.copies + {copy} && s'.stored == s.stored && s'.needs == s.needs
  {
    var snap := s.stored.value;
    CountedHolder(snap.obj, c);
    UnregisteredMeans(snap.obj, c);
  }

  /** A cluster that wants an object gets its marks on it in one pass, and its copy in the next. */
  lemma TwoPassesDeliver(names: Names, s: State, c: string)
    requires Inv(s) && c in s.needs && names.name != ""
    requires s.stored.Some? && !NameConflict(s.stored.value.obj, names.name)
    requires !s.stored.value.deleting && "kubeocean.io/deleting-" + c !in s.stored.value.obj.annotations
    ensures var s' := Pass(names, Pass(names, s, c), c); Copy(c, names.name) in s'.copies && Holds(s', c)
  {
    var o := s.stored.value.obj;
    var s1 := Pass(names, s, c);
    if LacksRegistration(o, c) {
      var namespace := if c in names.namespaces then names.namespaces[c] else "";
      RegisteredMeans(o, c, names.name, namespace, false);
      var o' := Joined(names, o, c).value;
      assert s1.stored.value.obj == o';
      assert DeletingMark(c)[13] != PHYSICAL_NAME[13];
      assert DeletingMark(c) !in o'.annotations;
      assert !LacksRegistration(o', c);
    }
  }

  /** A pass for a wanted object whose registration is not complete completes it and does nothing else. */
  lemma PassRegisters(names: Names, s: State, c: string)
    requires s.stored.Some? && c in s.needs && !NameConflict(s.stored.value.obj, names.name)
    requires var o := s.stored.value.obj;
             || Get(o.labels, "kubeocean.io/managed-by") != "kubeocean"
             || Get(o.labels, "kubeocean.io/synced-by-" + c) != "true"
             || Get(o.annotations, "kubeocean.io/physical-name") == ""
             || "kubeocean.io/finalizer-" + c !in o.finalizers
    ensures var s' := Pass(names, s, c);
            && s'.stored.Some? && "kubeocean.io/finalizer-" + c in s'.stored.value.obj.finalizers
            && Get(s'.stored.value.obj.annotations, "kubeocean.io/physical-name") == names.name
            && s'.stored.value.deleting == s.stored.value.deleting
            && s'.copies == s.copies && s'.needs == s.needs
  {
    var o := s.stored.value.obj;
    RegisteredMeans(o, c, names.name, if c in names.namespaces then names.namespaces[c] else "", false);
  }

  /** An object neither wanted nor marked by the cluster is left alone, and a missing one is no longer wanted. */
  lemma PassIgnoresOthers(names: Names, s: State, c: string)
    ensures (&& s.stored.Some? && c !in s.needs
             && (Get(s.stored.value.obj.labels, "kubeocean.io/managed-by") != "kubeocean" ||
                 Get(s.stored.value.obj.labels, "kubeocean.io/synced-by-" + c) != "true")) ==>
              Pass(names, s, c) == s
    ensures s.stored.None? ==> Pass(names, s, c) == s.(needs := s.needs - {c})
  {
  }

  /** What is left to do after the check of a cluster that gives the object up. */
  function Finished(s: State, c: string): State
    requires PhaseOf(s, c).DeletingCopy? || PhaseOf(s, c).Removing?
  {
    var snap := PhaseOf(s, c).snap;
    var s' := if PhaseOf(s, c).DeletingCopy? then s.(copies := s.copies - {CopyOf(snap, c)}) else s;
    At(if UpToDate(s, snap) then Put(s', Unregistered(snap.obj, c), snap.deleting) else s', c, Idle)
  }

  /** What the check decides, carried out, is what the pass does with a registered object. */
  lemma DecidedByCheck(names: Names, s: State, c: string, found: bool)
    requires PhaseOf(s, c).Fetched? && s.stored == Some(PhaseOf(s, c).snap)
    requires found <==> CopyOf(PhaseOf(s, c).snap, c) in s.copies
    ensures var snap := PhaseOf(s, c).snap;
            var s1 := ReconcilerStep(names, s, CheckCopy(c, found, true));
            && (PhaseOf(s1, c).Idle? ==> Lasting(s1) == Lasting(Decided(names, s, snap, c)))
            && (PhaseOf(s1, c).Creating? ==>
                  var copy := CopyOf(PhaseOf(s1, c).snap, c);
                  Lasting(s1.(copies := s1.copies + {copy})) == Lasting(Decided(names, s, snap, c)))
            && (PhaseOf(s1, c).DeletingCopy? || PhaseOf(s1, c).Removing? ==>
                  Lasting(Finished(s1, c)) == Lasting(Decided(names, s, snap, c)))
  {
  }

  class Clusters {
    var state: State

    /** The reconcile of one cluster when nothing comes in between; `trace` lists its reads and writes. */
    method Reconcile(names: Names, c: string, calls: Calls) returns (trace: seq<Action>)
      requires PhaseOf(state, c).Idle?
      modifies this
      ensures state == Run(names, old(state), trace)
      ensures PhaseOf(state, c).Idle?
      ensures forall i :: 0 <= i < |trace| ==> !trace[i].PodCreates?
      ensures calls == ALL_SUCCEED ==> Lasting(state) == Lasting(Pass(names, old(state), c))
    {
      trace := [];
      if !calls.getOk {
        return;
      }
      RunOne(names, state, Fetch(c));
      PassAfterFetch(names, state, c);
      FetchObject(names, c);
      trace := [Fetch(c)];
      if PhaseOf(state, c).Registering? {
        RunSnoc(names, old(state), trace, WriteRegistration(c, calls.registerOk));
        Register(names, c, calls.registerOk);
        trace := trace + [WriteRegistration(c, calls.registerOk)];
      } else if PhaseOf(state, c).Fetched? {
        var rest := CheckAndFinish(names, c, calls);
        RunConcat(names, old(state), trace, rest);
        trace := trace + rest;
      }
    }

    /** What a reconcile does with an object that is registered. */
    method CheckAndFinish(names: Names, c: string, calls: Calls) returns (trace: seq<Action>)
      requires PhaseOf(state, c).Fetched? && state.stored == Some(PhaseOf(state, c).snap)
      modifies this
      ensures state == Run(names, old(state), trace)
      ensures PhaseOf(state, c).Idle?
      ensures forall i :: 0 <= i < |trace| ==> !trace[i].PodCreates?
      ensures calls == ALL_SUCCEED ==>
                var snap := PhaseOf(old(state), c).snap;
                Lasting(state) == Lasting(Decided(names, old(state), snap, c))
    {
      var found := CopyOf(PhaseOf(state, c).snap, c) in state.copies || calls.staleCache;
      RunOne(names, state, CheckCopy(c, found, calls.checkOk));
      if calls == ALL_SUCCEED {
        DecidedByCheck(names, state, c, found);
      }
      Check(names, c, found, calls.checkOk);
      trace := [CheckCopy(c, found, calls.checkOk)];
      var rest := Finish(names, c, calls);
      RunConcat(names, old(state), trace, rest);
      trace := trace + rest;
    }

    /** What a reconcile does once it knows whether the copy exists. */
    method Finish(names: Names, c: string, calls: Calls) returns (trace: seq<Action>)
      requires !PhaseOf(state, c).Fetched? && !PhaseOf(state, c).Registering?
      modifies this
      ensures state == Run(names, old(state), trace)
      ensures PhaseOf(state, c).Idle?
      ensures forall i :: 0 <= i < |trace| ==> !trace[i].PodCreates?
      ensures old(PhaseOf(state, c).Idle?) ==> state == old(state)
      ensures calls == ALL_SUCCEED && old(PhaseOf(state, c).Creating?) ==>
                var copy := CopyOf(PhaseOf(old(state), c).snap, c);
                state == At(old(state).(copies := old(state).copies + {copy}), c, Idle)
      ensures calls == ALL_SUCCEED && old(PhaseOf(state, c).DeletingCopy? || PhaseOf(state, c).Removing?) ==>
                state == Finished(old(state), c)
    {
      trace := [];
      if PhaseOf(state, c).Creating? {
        RunOne(names, state, CreateCopy(c, calls.createOk));
        Create(names, c, calls.createOk);
        trace := [CreateCopy(c, calls.createOk)];
      } else if !PhaseOf(state, c).Idle? {
        trace := GiveUp(names, c, calls);
      }
    }

    /** The copy goes first, and only then the finalizer. */
    method GiveUp(names: Names, c: string, calls: Calls) returns (trace: seq<Action>)
      requires PhaseOf(state, c).DeletingCopy? || PhaseOf(state, c).Removing?
      modifies this
      ensures state == Run(names, old(state), trace)
      ensures PhaseOf(state, c).Idle?
      ensures forall i :: 0 <= i < |trace| ==> !trace[i].PodCreates?
      ensures calls == ALL_SUCCEED ==> state == Finished(old(state), c)
    {
      trace := [];
      if PhaseOf(state, c).DeletingCopy? {
        RunOne(names, state, DeleteCopy(c, calls.deleteOk));
        Delete(names, c, calls.deleteOk);
        trace := [DeleteCopy(c, calls.deleteOk)];
        if !calls.deleteOk {
          return;
        }
      }
      RunSnoc(names, old(state), trace, WriteRemoval(c, calls.removeOk));
      Remove(names, c, calls.removeOk);
      trace := trace + [WriteRemoval(c, calls.removeOk)];
    }

    method FetchObject(names: Names, c: string)
      requires PhaseOf(state, c).Idle?
      modifies this
      ensures state == ReconcilerStep(names, old(state), Fetch(c)) == AfterFetch(old(state), c)
      ensures PhaseOf(state, c).Idle? || PhaseOf(state, c).Registering? || PhaseOf(state, c).Fetched?
    {
      if state.stored.None? {
        state := state.(needs := state.needs - {c});
        return;
      }
      var snap := state.stored.value;
      if !Managed(snap.obj, c) && c !in state.needs {
        return;
      }
      if c in state.needs && LacksRegistration(snap.obj, c) {
        state := At(state, c, Registering(snap));
        return;
      }
      if SyncedObjects.Get(snap.obj.annotations, PHYSICAL_NAME) == "" {
        return;
      }
      state := At(state, c, Fetched(snap));
    }

    method Register(names: Names, c: string, ok: bool)
      requires PhaseOf(state, c).Registering?
      modifies this
      ensures state == ReconcilerStep(names, old(state), WriteRegistration(c, ok))
      ensures PhaseOf(state, c).Idle?
    {
      var snap := PhaseOf(state, c).snap;
      var r := Joined(names, snap.obj, c);
      if ok && UpToDate(state, snap) && r.Success? {
        state := Put(state, r.value, snap.deleting);
      }
      state := At(state, c, Idle);
    }

    method Check(names: Names, c: string, found: bool, ok: bool)
      requires PhaseOf(state, c).Fetched? && (CopyOf(PhaseOf(state, c).snap, c) in state.copies ==> found)
      modifies this
      ensures state == ReconcilerStep(names, old(state), CheckCopy(c, found, ok))
      ensures PhaseOf(state, c).Idle? || PhaseOf(state, c).Creating? || PhaseOf(state, c).DeletingCopy? ||
              PhaseOf(state, c).Removing?
    {
      var snap := PhaseOf(state, c).snap;
      if !ok {
        state := At(state, c, Idle);
      } else if GivenUp(names, snap, c) {
        state := state.(needs := state.needs - {c});
        state := At(state, c, if found then DeletingCopy(snap) else Removing(snap));
      } else if !found {
        state := At(state, c, Creating(snap));
      } else {
        state := At(state, c, Idle);
      }
    }

    method Create(names: Names, c: string, ok: bool)
      requires PhaseOf(state, c).Creating?
      modifies this
      ensures state == ReconcilerStep(names, old(state), CreateCopy(c, ok))
      ensures PhaseOf(state, c).Idle?
    {
      if ok {
        state := state.(copies := state.copies + {CopyOf(PhaseOf(state, c).snap, c)});
      }
      state := At(state, c, Idle);
    }

    method Delete(names: Names, c: string, ok: bool)
      requires PhaseOf(state, c).DeletingCopy?
      modifies this
      ensures state == ReconcilerStep(names, old(state), DeleteCopy(c, ok))
      ensures if ok then PhaseOf(state, c).Removing? else PhaseOf(state, c).Idle?
    {
      var snap := PhaseOf(state, c).snap;
      if !ok {
        state := At(state, c, Idle);
        return;
      }
      state := state.(copies := state.copies - {CopyOf(snap, c)});
      state := At(state, c, Removing(snap));
    }

    method Remove(names: Names, c: string, ok: bool)
      requires PhaseOf(state, c).Removing?
      modifies this
      ensures state == ReconcilerStep(names, old(state), WriteRemoval(c, ok))
      ensures PhaseOf(state, c).Idle?
    {
      var snap := PhaseOf(state, c).snap;
      if ok && UpToDate(state, snap) {
        state := Put(state, Unregistered(snap.obj, c), snap.deleting);
      }
      state := At(state, c, Idle);
    }
  }
}
