/**
 What keeps every step safe: the object is read under its own name, and the pod controller makes its
 copies at the right moment. Either can fail, and then a copy is left behind for good.
 */
module ConfigMapOrphans {
  import opened Wrappers
  import opened SyncedObjects
  import opened ConfigMapSync

  /** The object is read under the name that kubeocean gave it, or under none. */
  predicate ReadsOwnName(names: Names, s: State, a: Action) {
    a.Fetch? && s.stored.Some? ==> NameOf(s.stored.value.obj) == "" || NameOf(s.stored.value.obj) == names.name
  }

  /** The pod controller makes a copy only while the finalizer is on and not about to be taken off. */
  ghost predicate TimelyCreation(s: State, a: Action) {
    a.PodCreates? && a.cluster in s.podReady ==> Holds(s, a.cluster) && !AboutToLeave(s, a.cluster)
  }

  ghost predicate Orderly(names: Names, s: State, a: Action) {
    ReadsOwnName(names, s, a) && TimelyCreation(s, a)
  }

  ghost predicate OrderlyRun(names: Names, s: State, actions: seq<Action>) {
    forall i :: 0 <= i < |actions| ==> Orderly(names, Run(names, s, actions[..i]), actions[i])
  }

  lemma OrderlyPrefix(names: Names, s: State, actions: seq<Action>)
    requires OrderlyRun(names, s, actions) && actions != []
    ensures OrderlyRun(names, s, actions[..|actions| - 1])
    ensures Orderly(names, Run(names, s, actions[..|actions| - 1]), actions[|actions| - 1])
  {
    var before := actions[..|actions| - 1];
    forall i | 0 <= i < |before| ensures Orderly(names, Run(names, s, before[..i]), before[i]) {
      assert before[..i] == actions[..i];
    }
  }

  /** All copies, and all snapshots that copies are looked for by, are under that name. */
  ghost predicate Tidy(names: Names, s: State) {
    && (forall copy :: copy in s.copies ==> copy.name == names.name)
    && (forall c :: TidyPhase(names, s, c))
  }

  ghost predicate TidyPhase(names: Names, s: State, c: string) {
    match PhaseOf(s, c)
    case Idle => true
    case Registering(_) => true
    case Fetched(snap) => NameOf(snap.obj) == names.name
    case Creating(snap) => NameOf(snap.obj) == names.name
    case DeletingCopy(snap) => NameOf(snap.obj) == names.name
    case Removing(snap) => UpToDate(s, snap) ==> !HasCopy(s, c)
  }

  lemma NoCopyByName(names: Names, s: State, c: string)
    requires (forall copy :: copy in s.copies ==> copy.name == names.name) && Copy(c, names.name) !in s.copies
    ensures !HasCopy(s, c)
  {
    forall copy | copy in s.copies ensures copy.cluster != c {
      assert copy == Copy(copy.cluster, names.name);
    }
  }

  lemma TidyIsSafe(names: Names, s: State, a: Action)
    requires Tidy(names, s) && TimelyCreation(s, a)
    ensures SafeStep(s, a)
  {
    if a.WriteRemoval? {
      assert TidyPhase(names, s, a.cluster);
    }
  }

  lemma AtKeepsTidy(names: Names, s: State, c: string, p: Phase)
    requires Tidy(names, s) && TidyPhase(names, At(s, c, p), c)
    ensures Tidy(names, At(s, c, p))
  {
    forall d ensures TidyPhase(names, At(s, c, p), d) {
      assert TidyPhase(names, s, d);
    }
  }

  /** A write makes every other snapshot outdated, so it can only help. */
  lemma PutKeepsTidy(names: Names, s: State, o: Object, deleting: bool)
    requires Inv(s) && Tidy(names, s)
    ensures Tidy(names, Put(s, o, deleting))
  {
    forall d ensures TidyPhase(names, Put(s, o, deleting), d) {
      assert TidyPhase(names, s, d) && PhaseOk(s, d);
    }
  }

  /** Copies of a cluster that is not about to leave may come, and any copies may go. */
  lemma CopiesKeepTidy(names: Names, s: State, copies: set<Copy>)
    requires Tidy(names, s)
    requires forall copy :: copy in copies ==>
               copy.name == names.name && (copy in s.copies || !AboutToLeave(s, copy.cluster))
    ensures Tidy(names, s.(copies := copies))
  {
    var s' := s.(copies := copies);
    forall d ensures TidyPhase(names, s', d) {
      assert TidyPhase(names, s, d);
      if AboutToLeave(s, d) {
        forall copy | copy in copies ensures copy.cluster != d {
          assert copy in s.copies ==> copy.cluster != d;
        }
      }
    }
  }

  lemma ForgettingKeepsTidy(names: Names, s: State, needs: set<string>, ready: set<string>)
    requires Tidy(names, s)
    ensures Tidy(names, s.(needs := needs, podReady := ready))
  {
    forall d ensures TidyPhase(names, s.(needs := needs, podReady := ready), d) {
      assert TidyPhase(names, s, d);
    }
  }

  lemma CheckKeepsTidy(names: Names, s: State, c: string, found: bool)
    requires Tidy(names, s) && PhaseOf(s, c).Fetched?
    requires found || CopyOf(PhaseOf(s, c).snap, c) !in s.copies
    ensures Tidy(names, AfterCheck(s, names, c, PhaseOf(s, c).snap, found))
  {
    assert TidyPhase(names, s, c);
    var snap := PhaseOf(s, c).snap;
    ForgettingKeepsTidy(names, s, s.needs - {c}, s.podReady);
    var s0 := s.(needs := s.needs - {c});
    if !found {
      NoCopyByName(names, s, c);
      assert !HasCopy(s0, c);
      AtKeepsTidy(names, s0, c, Removing(snap));
    } else {
      AtKeepsTidy(names, s0, c, DeletingCopy(snap));
    }
    AtKeepsTidy(names, s, c, Idle);
    AtKeepsTidy(names, s, c, Creating(snap));
  }

  lemma DeletionKeepsTidy(names: Names, s: State, c: string)
    requires Tidy(names, s) && PhaseOf(s, c).DeletingCopy?
    ensures Tidy(names, ReconcilerStep(names, s, DeleteCopy(c, true)))
  {
    assert TidyPhase(names, s, c);
    var snap := PhaseOf(s, c).snap;
    var s' := s.(copies := s.copies - {CopyOf(snap, c)});
    CopiesKeepTidy(names, s, s'.copies);
    NoCopyByName(names, s', c);
    AtKeepsTidy(names, s', c, Removing(snap));
  }

  lemma ReconcilerStepKeepsTidy(names: Names, s: State, a: Action)
    requires Inv(s) && Tidy(names, s) && ByReconciler(a) && ReadsOwnName(names, s, a)
    ensures Tidy(names, ReconcilerStep(names, s, a))
  {
    var c := a.cluster;
    assert TidyPhase(names, s, c);
    AtKeepsTidy(names, s, c, Idle);
    match a {
      case Fetch(_) =>
        ForgettingKeepsTidy(names, s, s.needs - {c}, s.podReady);
        if s.stored.Some? {
          AtKeepsTidy(names, s, c, Registering(s.stored.value));
          if NameOf(s.stored.value.obj) == names.name {
            AtKeepsTidy(names, s, c, Fetched(s.stored.value));
          }
        }
      case WriteRegistration(_, ok) =>
        if PhaseOf(s, c).Registering? && Joined(names, PhaseOf(s, c).snap.obj, c).Success? {
          PutThenIdleKeepsTidy(names, s, c, Joined(names, PhaseOf(s, c).snap.obj, c).value,
                               PhaseOf(s, c).snap.deleting);
        }
      case CheckCopy(_, found, ok) =>
        if PhaseOf(s, c).Fetched? && (found || CopyOf(PhaseOf(s, c).snap, c) !in s.copies) {
          CheckKeepsTidy(names, s, c, found);
        }
      case CreateCopy(_, ok) =>
        if PhaseOf(s, c).Creating? {
          var copies := s.copies + {CopyOf(PhaseOf(s, c).snap, c)};
          CopiesKeepTidy(names, s, copies);
          AtKeepsTidy(names, s.(copies := copies), c, Idle);
        }
      case DeleteCopy(_, ok) =>
        if PhaseOf(s, c).DeletingCopy? {
          DeletionKeepsTidy(names, s, c);
        }
      case WriteRemoval(_, ok) =>
        if PhaseOf(s, c).Removing? {
          PutThenIdleKeepsTidy(names, s, c, Unregistered(PhaseOf(s, c).snap.obj, c), PhaseOf(s, c).snap.deleting);
        }
    }
  }

  lemma PutThenIdleKeepsTidy(names: Names, s: State, c: string, o: Object, deleting: bool)
    requires Inv(s) && Tidy(names, s)
    ensures Tidy(names, At(Put(s, o, deleting), c, Idle))
  {
    PutKeepsTidy(names, s, o, deleting);
    AtKeepsTidy(names, Put(s, o, deleting), c, Idle);
  }

  lemma OtherStepKeepsTidy(names: Names, s: State, a: Action)
    requires Inv(s) && Tidy(names, s) && !ByReconciler(a) && TimelyCreation(s, a)
    ensures Tidy(names, OtherStep(names, s, a))
  {
    match a {
      case UserCreates(o) => PutKeepsTidy(names, s, o, false);
      case UserEdits(o) =>
        if s.stored.Some? {
          PutKeepsTidy(names, s, o, s.stored.value.deleting);
        }
      case UserDeletes =>
        if s.stored.Some? {
          PutKeepsTidy(names, s, s.stored.value.obj, true);
        }
      case MarkDeleting(c) =>
        if s.stored.Some? && c in names.bindings {
          var o := s.stored.value.obj;
          PutKeepsTidy(names, s, o.(annotations := o.annotations[DeletingMark(c) := names.bindings[c]]),
                       s.stored.value.deleting);
        }
      case Restart(c) =>
        ForgettingKeepsTidy(names, s, s.needs - {c}, s.podReady - {c});
        AtKeepsTidy(names, s.(needs := s.needs - {c}, podReady := s.podReady - {c}), c, Idle);
      case PodNeeds(c) => ForgettingKeepsTidy(names, s, s.needs + {c}, s.podReady);
      case PodRegisters(c, ok) =>
        ForgettingKeepsTidy(names, s, s.needs, s.podReady + {c});
        if s.stored.Some? && Joined(names, s.stored.value.obj, c).Success? {
          var o' := Joined(names, s.stored.value.obj, c).value;
          PutKeepsTidy(names, s, o', s.stored.value.deleting);
          ForgettingKeepsTidy(names, Put(s, o', s.stored.value.deleting), s.needs, s.podReady + {c});
        }
      case PodCreates(c) =>
        if c in s.podReady {
          var copies := s.copies + {Copy(c, names.name)};
          CopiesKeepTidy(names, s, copies);
          ForgettingKeepsTidy(names, s.(copies := copies), s.needs, s.podReady - {c});
        }
    }
  }

  lemma StepKeepsTidy(names: Names, s: State, a: Action)
    requires Inv(s) && Tidy(names, s) && ReadsOwnName(names, s, a) && TimelyCreation(s, a)
    ensures Tidy(names, Step(names, s, a))
  {
    if ByReconciler(a) {
      ReconcilerStepKeepsTidy(names, s, a);
    } else {
      OtherStepKeepsTidy(names, s, a);
    }
  }

  /** If no user renames the object and the pod controller keeps to its moments, then every step is safe. */
  lemma {:induction false} OrderlyRunIsSafe(names: Names, actions: seq<Action>)
    requires OrderlyRun(names, START, actions)
    ensures SafeRun(names, START, actions) && Tidy(names, Run(names, START, actions))
  {
    if actions != [] {
      var before, last := actions[..|actions| - 1], actions[|actions| - 1];
      OrderlyPrefix(names, START, actions);
      OrderlyRunIsSafe(names, before);
      SafeRunKeepsInv(names, before);
      TidyIsSafe(names, Run(names, START, before), last);
      StepKeepsTidy(names, Run(names, START, before), last);
      SafeLonger(names, START, actions);
    }
  }

  /** In every such interleaving a copy in a cluster means that the cluster's finalizer is on the object. */
  lemma NoOrphanedCopies(names: Names, actions: seq<Action>)
    requires OrderlyRun(names, START, actions)
    ensures NeverOrphans(names, actions)
  {
    OrderlyRunIsSafe(names, actions);
    NoOrphansIffSafe(names, actions);
  }

  // ---------- The pod controller ----------

  /** An orphan is there at once or after the cluster's own next write, unless the copy is made at a timely moment. */
  lemma PodCreationSafeIff(names: Names, s: State, c: string)
    requires Inv(s) && c in s.podReady
    ensures var s' := Step(names, s, PodCreates(c));
            (NoOrphans(s') && forall ok :: NoOrphans(Step(names, s', WriteRemoval(c, ok)))) <==>
            Holds(s, c) && !AboutToLeave(s, c)
  {
    var s' := Step(names, s, PodCreates(c));
    StepSafeIff(names, s, PodCreates(c));
    if Holds(s, c) {
      StepKeepsInv(names, s, PodCreates(c));
      assert Copy(c, names.name) in s'.copies;
      forall ok ensures NoOrphans(Step(names, s', WriteRemoval(c, ok))) <==> !ok || !AboutToLeave(s, c) {
        StepSafeIff(names, s', WriteRemoval(c, ok));
      }
      assert NoOrphans(Step(names, s', WriteRemoval(c, true))) <==> !AboutToLeave(s, c);
    }
  }

  /** The pod controller has registered a cluster for a plain object. */
  function PlainRegistered(names: Names, c: string): State
    requires Joined(names, PLAIN, c).Success?
  {
    Put(Put(START, PLAIN, false), Joined(names, PLAIN, c).value, false).(podReady := {c})
  }

  /** The user has deleted that object. */
  function RegisteredThenDeleted(names: Names, c: string): State
    requires Joined(names, PLAIN, c).Success?
  {
    Put(PlainRegistered(names, c), Joined(names, PLAIN, c).value, true)
  }

  lemma RegisteringSteps(names: Names, c: string)
    requires names.name != ""
    ensures Joined(names, PLAIN, c).Success?
    ensures OtherStep(names, START, UserCreates(PLAIN)) == Put(START, PLAIN, false)
    ensures OtherStep(names, Put(START, PLAIN, false), PodRegisters(c, true)) == PlainRegistered(names, c)
  {
    LoneHolder(names, c);
  }

  lemma RaceBegins(names: Names, c: string)
    requires names.name != ""
    ensures Joined(names, PLAIN, c).Success?
    ensures Run(names, START, [UserCreates(PLAIN)] + [PodRegisters(c, true)] + [UserDeletes]) ==
            RegisteredThenDeleted(names, c)
  {
    RegisteringSteps(names, c);
    RunOne(names, START, UserCreates(PLAIN));
    RunSnoc(names, START, [UserCreates(PLAIN)], PodRegisters(c, true));
    RunSnoc(names, START, [UserCreates(PLAIN)] + [PodRegisters(c, true)], UserDeletes);
  }

  /** The reconciler works from the deleted object: it finds no copy and takes the finalizer off. */
  lemma RaceContinues(names: Names, c: string)
    requires names.name != ""
    ensures Joined(names, PLAIN, c).Success?
    ensures var s := Run(names, RegisteredThenDeleted(names, c),
                         [Fetch(c)] + [CheckCopy(c, false, true)] + [WriteRemoval(c, true)]);
            s.stored.None? && c in s.podReady
  {
    LoneHolder(names, c);
    var s3 := RegisteredThenDeleted(names, c);
    var snap := s3.stored.value;
    RunOne(names, s3, Fetch(c));
    assert AfterFetch(s3, c) == At(s3, c, Fetched(snap));
    RunSnoc(names, s3, [Fetch(c)], CheckCopy(c, false, true));
    RunSnoc(names, s3, [Fetch(c)] + [CheckCopy(c, false, true)], WriteRemoval(c, true));
  }

  /**
   The pod controller does not wait for such a moment. It registers, the user deletes the object, the
   reconciler finds no copy and takes the finalizer off, and only then is the copy made: an orphan,
   and the object it belonged to is gone.
   */
  lemma PodCreationCanOrphan(names: Names, c: string)
    requires names.name != ""
    ensures var s := Run(names, START, ([UserCreates(PLAIN)] + [PodRegisters(c, true)] + [UserDeletes]) +
                                       ([Fetch(c)] + [CheckCopy(c, false, true)] + [WriteRemoval(c, true)]) +
                                       [PodCreates(c)]);
            s.stored.None? && Copy(c, names.name) in s.copies
  {
    RaceBegins(names, c);
    RaceContinues(names, c);
    var a3 := [UserCreates(PLAIN)] + [PodRegisters(c, true)] + [UserDeletes];
    var a6 := [Fetch(c)] + [CheckCopy(c, false, true)] + [WriteRemoval(c, true)];
    RunConcat(names, START, a3, a6);
    RunSnoc(names, START, a3 + a6, PodCreates(c));
  }

  lemma LoneHolder(names: Names, c: string)
    requires names.name != ""
    ensures Counts(PLAIN, {})
    ensures var r := Joined(names, PLAIN, c);
            && r.Success? && r.value != PLAIN && r.value.finalizers == [Finalizer(c)]
            && !LacksRegistration(r.value, c) && Unregistered(r.value, c).finalizers == []
  {
    KeysApart(c, c);
    assert PHYSICAL_NAME[21..] != PHYSICAL_NAMESPACE[21..];
    var joined := Joined(names, PLAIN, c).value;
    assert joined.finalizers == [Finalizer(c)] && [Finalizer(c)][1..] == [];
    assert Without(joined.finalizers, Finalizer(c)) == [];
    assert !NothingToRemove(joined, c);
  }

  // ---------- A renamed object ----------

  /** The pod controller's copy has been made. */
  function PlainCopied(names: Names, c: string): State
    requires Joined(names, PLAIN, c).Success?
  {
    PlainRegistered(names, c).(copies := {Copy(c, names.name)}, podReady := {})
  }

  function Renaming(names: Names, c: string, other: string): Object
    requires Joined(names, PLAIN, c).Success?
  {
    var o := Joined(names, PLAIN, c).value;
    o.(annotations := o.annotations[PHYSICAL_NAME := other])
  }

  /** A user has set the name annotation to something else and then deleted the object. */
  function RenamedThenDeleted(names: Names, c: string, other: string): State
    requires Joined(names, PLAIN, c).Success?
  {
    var o := Renaming(names, c, other);
    Put(Put(PlainCopied(names, c), o, false), o, true)
  }

  lemma RenamingSteps(names: Names, c: string, other: string)
    requires names.name != ""
    ensures Joined(names, PLAIN, c).Success?
    ensures OtherStep(names, PlainRegistered(names, c), PodCreates(c)) == PlainCopied(names, c)
    ensures OtherStep(names, PlainCopied(names, c), UserEdits(Renaming(names, c, other)))
         == Put(PlainCopied(names, c), Renaming(names, c, other), false)
  {
    LoneHolder(names, c);
    assert KeepsMarks(Joined(names, PLAIN, c).value, Renaming(names, c, other));
  }

  lemma CopyIsMade(names: Names, c: string)
    requires names.name != ""
    ensures Joined(names, PLAIN, c).Success?
    ensures Run(names, START, [UserCreates(PLAIN)] + [PodRegisters(c, true)] + [PodCreates(c)]) == PlainCopied(names, c)
  {
    RegisteringSteps(names, c);
    RenamingSteps(names, c, "");
    RunOne(names, START, UserCreates(PLAIN));
    RunSnoc(names, START, [UserCreates(PLAIN)], PodRegisters(c, true));
    RunSnoc(names, START, [UserCreates(PLAIN)] + [PodRegisters(c, true)], PodCreates(c));
  }

  lemma RenamingBegins(names: Names, c: string, other: string)
    requires names.name != ""
    ensures Joined(names, PLAIN, c).Success?
    ensures Run(names, START, [UserCreates(PLAIN)] + [PodRegisters(c, true)] + [PodCreates(c)] +
                              [UserEdits(Renaming(names, c, other))] + [UserDeletes])
         == RenamedThenDeleted(names, c, other)
  {
    CopyIsMade(names, c);
    RenamingSteps(names, c, other);
    var a3 := [UserCreates(PLAIN)] + [PodRegisters(c, true)] + [PodCreates(c)];
    var edit := UserEdits(Renaming(names, c, other));
    RunSnoc(names, START, a3, edit);
    RunSnoc(names, START, a3 + [edit], UserDeletes);
  }

  lemma RenamedHolder(names: Names, c: string, other: string)
    requires names.name != "" && other != ""
    ensures Joined(names, PLAIN, c).Success?
    ensures var o := Renaming(names, c, other);
            NameOf(o) == other && !LacksRegistration(o, c) && Unregistered(o, c).finalizers == []
  {
    LoneHolder(names, c);
    var o := Renaming(names, c, other);
    assert !NothingToRemove(o, c);
  }

  /** The reconciler looks for a copy of the new name, finds none and takes the finalizer off. */
  lemma RenamingContinues(names: Names, c: string, other: string)
    requires names.name != "" && other != "" && other != names.name
    ensures Joined(names, PLAIN, c).Success?
    ensures var s := Run(names, RenamedThenDeleted(names, c, other),
                         [Fetch(c)] + [CheckCopy(c, false, true)] + [WriteRemoval(c, true)]);
            s.stored.None? && Copy(c, names.name) in s.copies
  {
    RenamedHolder(names, c, other);
    var s5 := RenamedThenDeleted(names, c, other);
    var snap := s5.stored.value;
    RunOne(names, s5, Fetch(c));
    assert AfterFetch(s5, c) == At(s5, c, Fetched(snap));
    assert CopyOf(snap, c) !in s5.copies;
    RunSnoc(names, s5, [Fetch(c)], CheckCopy(c, false, true));
    RunSnoc(names, s5, [Fetch(c)] + [CheckCopy(c, false, true)], WriteRemoval(c, true));
  }

  /**
   A user renames the object and deletes it. The reconciler looks for a copy of the new name, finds none
   and takes the finalizer off; the copy of the old name stays, and the object is gone.
   */
  lemma RenamingCanOrphan(names: Names, c: string, other: string)
    requires names.name != "" && other != "" && other != names.name
    ensures Joined(names, PLAIN, c).Success?
    ensures var s := Run(names, START,
                         ([UserCreates(PLAIN)] + [PodRegisters(c, true)] + [PodCreates(c)] +
                          [UserEdits(Renaming(names, c, other))] + [UserDeletes]) +
                         ([Fetch(c)] + [CheckCopy(c, false, true)] + [WriteRemoval(c, true)]));
            s.stored.None? && Copy(c, names.name) in s.copies
  {
    RenamingBegins(names, c, other);
    RenamingContinues(names, c, other);
    var a5 := [UserCreates(PLAIN)] + [PodRegisters(c, true)] + [PodCreates(c)] +
              [UserEdits(Renaming(names, c, other))] + [UserDeletes];
    RunConcat(names, START, a5, [Fetch(c)] + [CheckCopy(c, false, true)] + [WriteRemoval(c, true)]);
  }
}
