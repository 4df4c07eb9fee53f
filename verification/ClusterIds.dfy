/** The manager's registry of cluster ids: one map by binding name, one by id. */
module ClusterIds {
  import opened Wrappers

  datatype Registry = Registry(ids: map<string, string>, names: map<string, string>)

  const EMPTY := Registry(map[], map[])

  datatype Spec = Spec(clusterID: string, secretName: string, secretNamespace: string, mountNamespace: string,
                       serviceNamespaces: seq<string>)

  predicate Accepts(r: Registry, name: string, id: string) {
    (name in r.ids ==> r.ids[name] == id) && (id in r.names ==> r.names[id] == name)
  }

  /** A binding is recorded by name even if its id turns out to be taken. */
  function Validated(r: Registry, name: string, id: string): Registry {
    if name in r.ids && r.ids[name] != id then r
    else Registry(r.ids[name := id], if id in r.names then r.names else r.names[id := name])
  }

  function Cleaned(r: Registry, name: string, id: string): Registry {
    Registry(r.ids - {name}, r.names - {id})
  }

  class Reconciler {
    var nameToClusterID: map<string, string>
    var clusterIDToName: map<string, string>

    ghost function State(): Registry
      reads this
    {
      Registry(nameToClusterID, clusterIDToName)
    }

    constructor ()
      ensures State() == EMPTY
    {
      nameToClusterID, clusterIDToName := map[], map[];
    }

    method ValidateClusterIDConsistency(name: string, id: string) returns (r: Result<()>)
      modifies this
      ensures r.Success? <==> Accepts(old(State()), name, id)
      ensures State() == Validated(old(State()), name, id)
    {
      if name in nameToClusterID {
        if nameToClusterID[name] != id {
          return Failure("clusterID cannot be changed");
        }
      } else {
        nameToClusterID := nameToClusterID[name := id];
      }
      assert nameToClusterID == old(nameToClusterID)[name := id];
      if id in clusterIDToName {
        if clusterIDToName[id] != name {
          return Failure("clusterID is already used");
        }
      } else {
        clusterIDToName := clusterIDToName[id := name];
      }
      return Success(());
    }

    /** A binding without an id never reaches the maps; the other checks come after the maps have changed. */
    method ValidateClusterBinding(name: string, spec: Spec) returns (r: Result<()>)
      modifies this
      ensures r.Success? <==>
              && spec.clusterID != "" && Accepts(old(State()), name, spec.clusterID)
              && spec.secretName != "" && spec.secretNamespace != ""
              && spec.mountNamespace != "" && "" !in spec.serviceNamespaces
      ensures State() == if spec.clusterID == "" then old(State()) else Validated(old(State()), name, spec.clusterID)
    {
      if spec.clusterID == "" {
        return Failure("clusterID is required");
      }
      r := ValidateClusterIDConsistency(name, spec.clusterID);
      if r.Failure? {
        return;
      }
      if spec.secretName == "" || spec.secretNamespace == "" {
        return Failure("secretRef is required");
      }
      if spec.mountNamespace == "" {
        return Failure("mountNamespace is required");
      }
      for i := 0 to |spec.serviceNamespaces|
        invariant "" !in spec.serviceNamespaces[..i]
        invariant State() == Validated(old(State()), name, spec.clusterID)
      {
        if spec.serviceNamespaces[i] == "" {
          return Failure("serviceNamespaces cannot be empty");
        }
      }
      assert spec.serviceNamespaces[..|spec.serviceNamespaces|] == spec.serviceNamespaces;
    }

    method CleanupClusterIDMappings(name: string, id: string)
      modifies this
      ensures State() == Cleaned(old(State()), name, id)
    {
      nameToClusterID := nameToClusterID - {name};
      clusterIDToName := clusterIDToName - {id};
    }
  }

  // ---------- Runs ----------

  /** Bindings are validated again and again, under the id they have at the time, and finally deleted. */
  datatype Event = Validate(name: string, id: string) | Delete(name: string, id: string)

  /** The registry, and the live bindings that have been accepted, with their ids. */
  datatype World = World(registry: Registry, accepted: map<string, string>)

  function Step(w: World, e: Event): World {
    match e
    case Validate(name, id) =>
      var accepted := if Accepts(w.registry, name, id) then w.accepted[name := id] else w.accepted;
      World(Validated(w.registry, name, id), accepted)
    case Delete(name, id) => World(Cleaned(w.registry, name, id), w.accepted - {name})
  }

  function Run(w: World, events: seq<Event>): World {
    if events == [] then w else Step(Run(w, events[..|events| - 1]), events[|events| - 1])
  }

  const START := World(EMPTY, map[])

  /** Both maps agree on every accepted binding. */
  ghost predicate Agree(w: World) {
    forall n :: n in w.accepted ==>
      var id := w.accepted[n];
      n in w.registry.ids && w.registry.ids[n] == id && id in w.registry.names && w.registry.names[id] == n
  }

  ghost predicate Distinct(accepted: map<string, string>) {
    forall m, n :: m in accepted && n in accepted && m != n ==> accepted[m] != accepted[n]
  }

  /** A deleted binding is the recorded owner of its id, or nobody is. */
  predicate OwnerDeleted(w: World, e: Event) {
    e.Delete? && e.id in w.registry.names ==> w.registry.names[e.id] == e.name
  }

  ghost predicate OwnersDeleted(events: seq<Event>) {
    forall i :: 0 <= i < |events| ==> OwnerDeleted(Run(START, events[..i]), events[i])
  }

  lemma StepKeepsAgreement(w: World, e: Event)
    requires Agree(w) && OwnerDeleted(w, e)
    ensures Agree(Step(w, e))
  {
  }

  /** Over every such run accepted live bindings have ids of their own, on which both maps agree. */
  lemma {:induction false} RegistryAgrees(events: seq<Event>)
    requires OwnersDeleted(events)
    ensures Agree(Run(START, events)) && Distinct(Run(START, events).accepted)
  {
    if events != [] {
      var n := |events| - 1;
      forall i | 0 <= i < n ensures OwnerDeleted(Run(START, events[..n][..i]), events[..n][i]) {
        assert events[..n][..i] == events[..i];
      }
      RegistryAgrees(events[..n]);
      StepKeepsAgreement(Run(START, events[..n]), events[n]);
    }
  }

  lemma RunSnoc(w: World, events: seq<Event>, e: Event)
    ensures Run(w, events + [e]) == Step(Run(w, events), e)
  {
    assert (events + [e])[..|events|] == events;
  }

  lemma {:induction false} RunConcat(w: World, a: seq<Event>, b: seq<Event>)
    ensures Run(w, a + b) == Run(Run(w, a), b)
  {
    if b == [] {
      assert a + b == a;
    } else {
      var n := |b| - 1;
      RunConcat(w, a, b[..n]);
      RunSnoc(w, a + b[..n], b[n]);
      assert a + b == a + b[..n] + [b[n]];
    }
  }

  /** Until a binding is deleted, the id it was first validated under is the only one it can be accepted with. */
  lemma {:induction false} IdNeverChanges(w: World, name: string, events: seq<Event>)
    requires name in w.registry.ids && (name in w.accepted ==> w.accepted[name] == w.registry.ids[name])
    requires forall e :: e in events && e.Delete? ==> e.name != name
    ensures var w' := Run(w, events);
            && name in w'.registry.ids && w'.registry.ids[name] == w.registry.ids[name]
            && (name in w'.accepted ==> w'.accepted[name] == w.registry.ids[name])
            && (name in w.accepted ==> name in w'.accepted)
            && forall id :: id != w.registry.ids[name] ==> !Accepts(w'.registry, name, id)
  {
    if events != [] {
      var n := |events| - 1;
      assert events[n] in events;
      IdNeverChanges(w, name, events[..n]);
    }
  }

  /** So a binding that was turned down because its id is taken can never be given another id. */
  lemma RejectedBindingIsStuck(w: World, name: string, id: string, events: seq<Event>, other: string)
    requires name !in w.registry.ids && name !in w.accepted && !Accepts(w.registry, name, id) && other != id
    requires forall e :: e in events && e.Delete? ==> e.name != name
    ensures !Accepts(Run(w, [Validate(name, id)] + events).registry, name, other)
  {
    RunSnoc(w, [], Validate(name, id));
    assert [] + [Validate(name, id)] == [Validate(name, id)];
    RunConcat(w, [Validate(name, id)], events);
    IdNeverChanges(Step(w, Validate(name, id)), name, events);
  }

  /** A deletion keeps the agreement exactly if the id is not in the name of another accepted binding. */
  lemma DeleteKeepsAgreementIff(w: World, name: string, id: string)
    requires Agree(w)
    ensures Agree(Step(w, Delete(name, id))) <==>
            !(id in w.registry.names && w.registry.names[id] != name &&
              w.registry.names[id] in w.accepted && w.accepted[w.registry.names[id]] == id)
  {
    var w' := Step(w, Delete(name, id));
    if id in w.registry.names {
      var owner := w.registry.names[id];
      if owner != name && owner in w.accepted && w.accepted[owner] == id {
        assert owner in w'.accepted && id !in w'.registry.names;
      }
    }
  }

  /** The deletion of a turned-down binding frees the id of its owner: afterwards two live bindings share it. */
  lemma RejectedBindingFreesTheId()
    ensures var w := Run(START, [Validate("a", "x")] + [Validate("b", "x")] + [Delete("b", "x")] +
                         [Validate("c", "x")]);
            "a" in w.accepted && "c" in w.accepted && w.accepted["a"] == w.accepted["c"]
  {
    var e1, e2, e3, e4 := Validate("a", "x"), Validate("b", "x"), Delete("b", "x"), Validate("c", "x");
    assert [] + [e1] == [e1];
    RunSnoc(START, [], e1);
    RunSnoc(START, [e1], e2);
    RunSnoc(START, [e1] + [e2], e3);
    RunSnoc(START, [e1] + [e2] + [e3], e4);
    assert !Accepts(Run(START, [e1]).registry, "b", "x");
  }

  // ---------- When an id becomes free again ----------

  /** No other binding can be accepted with the id. */
  ghost predicate Taken(r: Registry, id: string, owner: string) {
    id in r.names && r.names[id] == owner
  }

  lemma TakenBlocks(r: Registry, id: string, owner: string, other: string)
    requires Taken(r, id, owner) && other != owner
    ensures !Accepts(r, other, id)
  {
  }

  /** The event is a deletion under the given id. */
  predicate Frees(e: Event, id: string) {
    e.Delete? && e.id == id
  }

  lemma {:induction false} StaysTaken(w: World, id: string, owner: string, events: seq<Event>)
    requires Taken(w.registry, id, owner) && forall i :: 0 <= i < |events| ==> !Frees(events[i], id)
    ensures Taken(Run(w, events).registry, id, owner)
  {
    if events != [] {
      StaysTaken(w, id, owner, events[..|events| - 1]);
      assert !Frees(events[|events| - 1], id);
    }
  }

  lemma FreedAt(w: World, id: string, owner: string, events: seq<Event>, i: nat)
    requires i < |events| && Frees(events[i], id)
    ensures !Taken(Run(w, events[..i + 1]).registry, id, owner)
  {
    assert events[..i + 1] == events[..i] + [events[i]];
    RunSnoc(w, events[..i], events[i]);
  }

  ghost predicate AlwaysTaken(w: World, id: string, owner: string, events: seq<Event>) {
    forall i :: 0 <= i <= |events| ==> Taken(Run(w, events[..i]).registry, id, owner)
  }

  /** Over every run an id that is taken stays its owner's exactly as long as no deletion names that very id. */
  lemma IdFreedIff(w: World, id: string, owner: string, events: seq<Event>)
    requires Taken(w.registry, id, owner)
    ensures AlwaysTaken(w, id, owner, events) <==> forall i :: 0 <= i < |events| ==> !Frees(events[i], id)
  {
    if i :| 0 <= i < |events| && Frees(events[i], id) {
      FreedAt(w, id, owner, events, i);
    } else {
      forall i | 0 <= i <= |events| ensures Taken(Run(w, events[..i]).registry, id, owner) {
        StaysTaken(w, id, owner, events[..i]);
      }
    }
  }

  /** A deletion makes the id available to another binding exactly if the binding is deleted under that id. */
  lemma DeletionFreesIff(r: Registry, owner: string, id: string, deletedUnder: string, other: string)
    requires Taken(r, id, owner) && other != owner && other !in r.ids
    ensures Accepts(Cleaned(r, owner, deletedUnder), other, id) <==> deletedUnder == id
  {
  }

  /**
   The id is read from the binding as it is when it is deleted. A binding that was edited after its acceptance, an
   edit that is turned down but stored, leaves its id behind: nobody else can ever use it, though its owner is gone.
   */
  lemma EditedBindingLeaksItsId(name: string, id: string, edited: string, other: string, events: seq<Event>)
    requires edited != id && other != name
    requires forall i :: 0 <= i < |events| ==> !Frees(events[i], id)
    ensures var w := Run(START, [Validate(name, id)] + [Validate(name, edited)] + [Delete(name, edited)]);
            && name !in w.accepted && name !in w.registry.ids
            && !Accepts(Run(w, events).registry, other, id)
  {
    var e1, e2, e3 := Validate(name, id), Validate(name, edited), Delete(name, edited);
    assert [] + [e1] == [e1];
    RunSnoc(START, [], e1);
    RunSnoc(START, [e1], e2);
    RunSnoc(START, [e1] + [e2], e3);
    var w := Run(START, [e1] + [e2] + [e3]);
    StaysTaken(w, id, name, events);
    TakenBlocks(Run(w, events).registry, id, name, other);
  }
}
