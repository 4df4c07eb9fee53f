/** When the deletion of a shared object comes to an end. */
module ConfigMapProgress {
  import opened Wrappers
  import opened SyncedObjects
  import opened ConfigMapSync
  import opened ConfigMapReconcile

  /** The object is being deleted, and the finalizers of these clusters are all that keeps it. */
  ghost predicate Dying(s: State, holders: set<string>) {
    && s.stored.Some? && s.stored.value.deleting
    && Counts(s.stored.value.obj, holders)
    && (forall f :: f in s.stored.value.obj.finalizers ==> IsClusterFinalizer(f))
  }

  predicate Named(s: State) {
    s.stored.Some? && NameOf(s.stored.value.obj) != ""
  }

  // ---------- One pass of a holder ----------

  lemma HolderIsManaged(s: State, holders: set<string>, c: string)
    requires Dying(s, holders) && c in holders
    ensures Managed(s.stored.value.obj, c) && Finalizer(c) in s.stored.value.obj.finalizers
    ensures LacksRegistration(s.stored.value.obj, c) <==> !Named(s)
  {
    KeysApart(c, c);
  }

  lemma NoHoldersNoFinalizers(o: Object)
    requires Counts(o, {}) && forall f :: f in o.finalizers ==> IsClusterFinalizer(f)
    ensures o.finalizers == []
  {
    if o.finalizers != [] {
      var c := ClusterOf(o.finalizers[0]);
    }
  }

  /** While the name is there, a pass takes the copy of that name and the finalizer away, and the name with them. */
  lemma PassReleases(names: Names, s: State, holders: set<string>, c: string)
    requires Dying(s, holders) && c in holders && Named(s)
    ensures var s' := Pass(names, s, c);
            && s'.copies == s.copies - {CopyOf(s.stored.value, c)} && s'.needs == s.needs - {c}
            && (if holders == {c} then s'.stored.None? else Dying(s', holders - {c}) && !Named(s'))
  {
    HolderIsManaged(s, holders, c);
    var o := s.stored.value.obj;
    UnregisterCounts(o, holders, c);
    var o' := Unregistered(o, c);
    forall f | f in o'.finalizers ensures IsClusterFinalizer(f) {
      WithoutIn(o.finalizers, Finalizer(c), f);
    }
    if holders == {c} {
      assert holders - {c} == {};
      NoHoldersNoFinalizers(o');
    } else {
      var d :| d in holders - {c};
      assert Finalizer(d) in o'.finalizers;
    }
  }

  /** Without the name a cluster that still wants the object first puts the name back. */
  lemma PassRestoresName(names: Names, s: State, holders: set<string>, c: string)
    requires Dying(s, holders) && c in holders && !Named(s) && c in s.needs && names.name != ""
    ensures var s' := Pass(names, s, c);
            && Dying(s', holders) && NameOf(s'.stored.value.obj) == names.name
            && s'.copies == s.copies && s'.needs == s.needs
  {
    HolderIsManaged(s, holders, c);
    var o := s.stored.value.obj;
    var namespace := if c in names.namespaces then names.namespaces[c] else "";
    RegisterCounts(o, holders, c, names.name, namespace, false);
    assert holders + {c} == holders;
    assert PHYSICAL_NAME[21..] != PHYSICAL_NAMESPACE[21..];
  }

  /** A cluster that has forgotten the object does nothing, however often it looks. */
  lemma PassStuck(names: Names, s: State, holders: set<string>, c: string)
    requires Dying(s, holders) && c in holders && !Named(s) && c !in s.needs
    ensures Pass(names, s, c) == s
  {
    HolderIsManaged(s, holders, c);
  }

  /** Nothing is left to do for a cluster that has let go. */
  lemma PassAfterRelease(names: Names, s: State, holders: set<string>, c: string)
    requires c !in s.needs && (s.stored.None? || (Dying(s, holders) && c !in holders))
    ensures var s' := Pass(names, s, c); s'.stored == s.stored && s'.copies == s.copies && s'.needs == s.needs
  {
    KeysApart(c, c);
    assert s.needs - {c} == s.needs;
  }

  // ---------- The deletion as seen from outside ----------

  /** Whether the name is there, who holds the object, and who of them still wants it. */
  datatype View = View(named: bool, holders: set<string>, wanting: set<string>)

  /** What a pass of a cluster does. */
  function Next(v: View, c: string): View {
    if c !in v.holders then v
    else if v.named then View(false, v.holders - {c}, v.wanting - {c})
    else if c in v.wanting then v.(named := true)
    else v
  }

  function Play(v: View, order: seq<string>): View
    decreases |order|
  {
    if order == [] then v else Play(Next(v, order[0]), order[1..])
  }

  ghost predicate Shows(s: State, v: View, all: set<string>) {
    && v.wanting <= v.holders <= all
    && (if v.holders == {} then s.stored.None? && !v.named else Dying(s, v.holders) && (Named(s) <==> v.named))
    && (forall c :: c in all ==> (c in s.needs <==> c in v.wanting))
  }

  /** The passes of the clusters, one after the other. */
  function PassAll(names: Names, s: State, order: seq<string>): State
    decreases |order|
  {
    if order == [] then s else PassAll(names, Pass(names, s, order[0]), order[1..])
  }

  lemma PassShows(names: Names, s: State, v: View, all: set<string>, c: string)
    requires Shows(s, v, all) && c in all && names.name != ""
    ensures Shows(Pass(names, s, c), Next(v, c), all)
  {
    if v.holders == {} || c !in v.holders {
      PassAfterRelease(names, s, v.holders, c);
    } else if v.named {
      PassReleases(names, s, v.holders, c);
    } else if c in v.wanting {
      PassRestoresName(names, s, v.holders, c);
    } else {
      PassStuck(names, s, v.holders, c);
    }
  }

  lemma {:induction false} PassAllShows(names: Names, s: State, v: View, all: set<string>, order: seq<string>)
    requires Shows(s, v, all) && Members(order) <= all && names.name != ""
    ensures Shows(PassAll(names, s, order), Play(v, order), all)
    decreases |order|
  {
    if order != [] {
      assert order[0] in Members(order) && Members(order[1..]) <= Members(order);
      PassShows(names, s, v, all, order[0]);
      PassAllShows(names, Pass(names, s, order[0]), Next(v, order[0]), all, order[1..]);
    }
  }

  function Members(order: seq<string>): set<string> {
    set c | c in order
  }

  lemma MembersConcat(a: seq<string>, b: seq<string>)
    ensures Members(a + b) == Members(a) + Members(b)
  {
  }

  ghost function ViewOf(s: State, holders: set<string>): View {
    View(Named(s), holders, holders * s.needs)
  }

  /** Two passes make a holder let go exactly if the name is still there or the cluster still wants the object. */
  lemma LetsGoIff(names: Names, s: State, holders: set<string>, c: string)
    requires Dying(s, holders) && c in holders && names.name != ""
    ensures !Holds(Pass(names, Pass(names, s, c), c), c) <==> Named(s) || c in s.needs
  {
    var v := ViewOf(s, holders);
    assert Shows(s, v, holders);
    PassShows(names, s, v, holders, c);
    PassShows(names, Pass(names, s, c), Next(v, c), holders, c);
  }

  // ---------- Whether the deletion can end ----------

  lemma {:induction false} PlayConcat(v: View, a: seq<string>, b: seq<string>)
    ensures Play(v, a + b) == Play(Play(v, a), b)
    decreases |a|
  {
    if a == [] {
      assert a + b == b;
    } else {
      assert (a + b)[0] == a[0] && (a + b)[1..] == a[1..] + b;
      PlayConcat(Next(v, a[0]), a[1..], b);
    }
  }

  lemma PlayOne(v: View, c: string)
    ensures Play(v, [c]) == Next(v, c)
  {
    assert [c][1..] == [];
  }

  lemma PlayTwo(v: View, c: string, d: string)
    ensures Play(v, [c, d]) == Next(Next(v, c), d)
  {
    assert [c, d][1..] == [d];
    PlayOne(Next(v, c), d);
  }

  /** Without the name, and with nobody who would put it back, nothing moves any more. */
  lemma {:induction false} StuckStays(v: View, order: seq<string>)
    requires !v.named && v.wanting == {}
    ensures Play(v, order) == v
    decreases |order|
  {
    if order != [] {
      StuckStays(Next(v, order[0]), order[1..]);
    }
  }

  /** One cluster that still wants the object can help all the others out, and goes last. */
  lemma {:induction false} HelperEnds(v: View, d: string) returns (order: seq<string>)
    requires v.wanting <= v.holders && d in v.wanting
    ensures Members(order) <= v.holders && Play(v, order).holders == {}
    decreases |v.holders|
  {
    if c :| c in v.holders && c != d {
      var first := if v.named then [c] else [d, c];
      PlayOne(v, c);
      PlayTwo(v, d, c);
      var rest := HelperEnds(Play(v, first), d);
      order := first + rest;
      MembersConcat(first, rest);
      assert Members(first) <= v.holders;
      PlayConcat(v, first, rest);
    } else {
      assert v.holders == {d};
      order := if v.named then [d] else [d, d];
      PlayOne(v, d);
      PlayTwo(v, d, d);
    }
  }

  lemma CannotEnd(v: View, order: seq<string>)
    requires v.wanting == {} && v.holders != {} && (v.named ==> |v.holders| > 1) && Members(order) <= v.holders
    ensures Play(v, order).holders != {}
  {
    if !v.named {
      StuckStays(v, order);
    } else if order != [] {
      var c := order[0];
      assert c in Members(order);
      assert |v.holders - {c}| > 0;
      StuckStays(Next(v, c), order[1..]);
    }
  }

  ghost predicate Ends(names: Names, s: State, holders: set<string>, order: seq<string>) {
    Members(order) <= holders && PassAll(names, s, order).stored.None?
  }

  /** Some sequence of passes ends the deletion exactly if one holder wants the object, or a lone one finds the name. */
  lemma DeletionCanEndIff(names: Names, s: State, holders: set<string>)
    requires Dying(s, holders) && holders != {} && names.name != ""
    ensures (exists order :: Ends(names, s, holders, order)) <==>
            holders * s.needs != {} || (Named(s) && |holders| == 1)
  {
    var v := ViewOf(s, holders);
    assert Shows(s, v, holders);
    if d :| d in holders * s.needs {
      var order := HelperEnds(v, d);
      PassAllShows(names, s, v, holders, order);
      assert Ends(names, s, holders, order);
    } else if Named(s) && |holders| == 1 {
      var c :| c in holders;
      LoneMember(holders, c);
      PlayOne(v, c);
      PassAllShows(names, s, v, holders, [c]);
      assert Ends(names, s, holders, [c]);
    } else {
      assert |holders| != 0;
      forall order | Members(order) <= holders ensures !Ends(names, s, holders, order) {
        PassAllShows(names, s, v, holders, order);
        CannotEnd(v, order);
      }
    }
  }

  lemma LoneMember(holders: set<string>, c: string)
    requires |holders| == 1 && c in holders
    ensures holders == {c}
  {
    assert |holders - {c}| == 0;
  }

  // ---------- Whether it ends in any case ----------

  /** Rounds in which every holder has its turn, and other turns may come in between. */
  function PassRounds(names: Names, s: State, rounds: seq<seq<string>>): State
    decreases |rounds|
  {
    if rounds == [] then s else PassRounds(names, PassAll(names, s, rounds[0]), rounds[1..])
  }

  function PlayRounds(v: View, rounds: seq<seq<string>>): View
    decreases |rounds|
  {
    if rounds == [] then v else PlayRounds(Play(v, rounds[0]), rounds[1..])
  }

  ghost predicate Covering(rounds: seq<seq<string>>, holders: set<string>) {
    forall i :: 0 <= i < |rounds| ==> Members(rounds[i]) == holders
  }

  lemma {:induction false} PassRoundsShow(names: Names, s: State, v: View, all: set<string>, rounds: seq<seq<string>>)
    requires Shows(s, v, all) && Covering(rounds, all) && names.name != ""
    ensures Shows(PassRounds(names, s, rounds), PlayRounds(v, rounds), all)
    decreases |rounds|
  {
    if rounds != [] {
      PassAllShows(names, s, v, all, rounds[0]);
      PassRoundsShow(names, PassAll(names, s, rounds[0]), Play(v, rounds[0]), all, rounds[1..]);
    }
  }

  /** How many passes of holders are left while everyone wants the object. */
  function Left(v: View): int {
    2 * |v.holders| - if v.named then 1 else 0
  }

  lemma {:induction false} WantedPlay(v: View, order: seq<string>)
    requires v.wanting == v.holders
    ensures var w := Play(v, order);
            && w.wanting == w.holders <= v.holders && Left(w) <= Left(v)
            && ((exists c :: c in order && c in v.holders) ==> Left(w) < Left(v))
    decreases |order|
  {
    if order != [] {
      var c := order[0];
      if c in v.holders && v.named {
        assert |v.holders - {c}| == |v.holders| - 1;
      }
      WantedPlay(Next(v, c), order[1..]);
    }
  }

  lemma {:induction false} WantedRoundsEnd(v: View, rounds: seq<seq<string>>, all: set<string>)
    requires v.wanting == v.holders <= all && Covering(rounds, all) && |rounds| >= Left(v)
    requires v.holders == {} ==> !v.named
    ensures PlayRounds(v, rounds).holders == {}
    decreases |rounds|
  {
    if v.holders == {} {
      RoundsStuck(v, rounds);
    } else {
      var c :| c in v.holders;
      assert |v.holders| > 0;
      assert c in Members(rounds[0]);
      WantedPlay(v, rounds[0]);
      NeverNamedAlone(v, rounds[0]);
      WantedRoundsEnd(Play(v, rounds[0]), rounds[1..], all);
    }
  }

  lemma {:induction false} NeverNamedAlone(v: View, order: seq<string>)
    requires v.wanting <= v.holders && (v.holders == {} ==> !v.named)
    ensures Play(v, order).holders == {} ==> !Play(v, order).named
    decreases |order|
  {
    if order != [] {
      NeverNamedAlone(Next(v, order[0]), order[1..]);
    }
  }

  lemma {:induction false} RoundsStuck(v: View, rounds: seq<seq<string>>)
    requires !v.named && v.wanting == {}
    ensures PlayRounds(v, rounds) == v
    decreases |rounds|
  {
    if rounds != [] {
      StuckStays(v, rounds[0]);
      RoundsStuck(v, rounds[1..]);
    }
  }

  lemma {:induction false} LoneRoundEnds(v: View, c: string, order: seq<string>)
    requires v == View(true, {c}, {}) && c in order
    ensures Play(v, order) == View(false, {}, {})
    decreases |order|
  {
    if order[0] == c {
      assert Next(v, c) == View(false, {}, {});
      StuckStays(Next(v, c), order[1..]);
    } else {
      assert order == [order[0]] + order[1..];
      LoneRoundEnds(v, c, order[1..]);
    }
  }

  // ---------- A schedule that leaves one holder behind ----------

  ghost function Listing(cs: set<string>): (r: seq<string>)
    ensures Members(r) == cs
    ensures forall i, j :: 0 <= i < j < |r| ==> r[i] != r[j]
    decreases |cs|
  {
    if cs == {} then []
    else
      var c :| c in cs;
      var rest := Listing(cs - {c});
      assert c !in Members(rest) && Members([c]) == {c};
      MembersConcat([c], rest);
      [c] + rest
  }

  function Doubled(order: seq<string>): seq<string> {
    if order == [] then [] else [order[0], order[0]] + Doubled(order[1..])
  }

  lemma {:induction false} DoubledMembers(order: seq<string>)
    ensures Members(Doubled(order)) == Members(order)
  {
    if order != [] {
      DoubledMembers(order[1..]);
      MembersConcat([order[0]], order[1..]);
      MembersConcat([order[0], order[0]], Doubled(order[1..]));
      assert order == [order[0]] + order[1..];
      assert Members([order[0], order[0]]) == Members([order[0]]);
    }
  }

  /** After two turns each of all others nobody of them wants the object, and the name is gone. */
  lemma {:induction false} DoubledPlay(v: View, order: seq<string>, c: string)
    requires v.wanting <= v.holders && c in v.holders && c !in v.wanting && c !in order
    requires Members(order) <= v.holders && v.holders <= Members(order) + {c} + (v.holders - v.wanting)
    requires forall i, j :: 0 <= i < j < |order| ==> order[i] != order[j]
    requires order == [] ==> !v.named
    ensures var w := Play(v, Doubled(order)); c in w.holders && w.wanting == {} && !w.named
    decreases |order|
  {
    if order == [] {
      assert v.wanting == {};
    } else {
      var d, rest := order[0], order[1..];
      assert order == [d] + rest && d in Members(order);
      PlayTwo(v, d, d);
      PlayConcat(v, [d, d], Doubled(rest));
      var w := Next(Next(v, d), d);
      assert !w.named && d !in w.wanting && v.holders - {d} <= w.holders <= v.holders;
      assert w.wanting == v.wanting - {d};
      DoubledPlay(w, rest, c);
    }
  }

  ghost predicate Fair(rounds: seq<seq<string>>, holders: set<string>) {
    Covering(rounds, holders) && |rounds| >= 2 * |holders|
  }

  lemma LeftBehind(v: View, c: string) returns (rounds: seq<seq<string>>)
    requires v.wanting <= v.holders && c in v.holders && c !in v.wanting
    requires v.named ==> |v.holders| > 1
    ensures Fair(rounds, v.holders) && PlayRounds(v, rounds).holders != {}
  {
    var others := Listing(v.holders - {c});
    assert c !in Members(others);
    DoubledMembers(others);
    if v.named {
      assert |v.holders - {c}| > 0;
    }
    DoubledPlay(v, others, c);
    var round := Doubled(others) + [c];
    var w := Play(v, Doubled(others));
    PlayConcat(v, Doubled(others), [c]);
    StuckStays(w, [c]);
    MembersConcat(Doubled(others), [c]);
    assert Members([c]) == {c};
    rounds := seq(2 * |v.holders|, i => round);
    assert |v.holders| > 0;
    RoundsStuck(w, rounds[1..]);
  }

  /**
   Every fair schedule ends the deletion exactly if all holders still want the object, or a lone holder finds
   the name. A syncer that has been restarted and has not seen its pods again does not want it: if the others
   let go first, its copy, its finalizer and the object stay until some other holder puts the name back.
   */
  lemma DeletionAlwaysEndsIff(names: Names, s: State, holders: set<string>)
    requires Dying(s, holders) && holders != {} && names.name != ""
    ensures (forall rounds :: Fair(rounds, holders) ==> PassRounds(names, s, rounds).stored.None?) <==>
            holders <= s.needs || (Named(s) && |holders| == 1)
  {
    var v := ViewOf(s, holders);
    assert Shows(s, v, holders);
    if holders <= s.needs {
      assert v.wanting == holders;
      forall rounds | Fair(rounds, holders) ensures PassRounds(names, s, rounds).stored.None? {
        PassRoundsShow(names, s, v, holders, rounds);
        WantedRoundsEnd(v, rounds, holders);
      }
    } else {
      var c :| c in holders && c !in s.needs;
      if Named(s) && |holders| == 1 {
        LoneMember(holders, c);
        forall rounds | Fair(rounds, holders) ensures PassRounds(names, s, rounds).stored.None? {
          PassRoundsShow(names, s, v, holders, rounds);
          assert c in Members(rounds[0]);
          LoneRoundEnds(v, c, rounds[0]);
          RoundsStuck(View(false, {}, {}), rounds[1..]);
        }
      } else {
        assert |holders - {c}| == |holders| - 1;
        var rounds := LeftBehind(v, c);
        PassRoundsShow(names, s, v, holders, rounds);
        assert Fair(rounds, holders) && PassRounds(names, s, rounds).stored.Some?;
      }
    }
  }

  // ---------- The copies ----------

  /** Copies are under the object's own name, and only clusters that hold the object have one. */
  ghost predicate Accounted(names: Names, s: State, holders: set<string>) {
    && (s.stored.Some? ==> NameOf(s.stored.value.obj) == "" || NameOf(s.stored.value.obj) == names.name)
    && (forall copy :: copy in s.copies ==> copy.name == names.name && copy.cluster in holders)
  }

  lemma PassAccounts(names: Names, s: State, v: View, all: set<string>, c: string)
    requires Shows(s, v, all) && c in all && names.name != "" && Accounted(names, s, v.holders)
    ensures Accounted(names, Pass(names, s, c), Next(v, c).holders)
  {
    if v.holders == {} || c !in v.holders {
      PassAfterRelease(names, s, v.holders, c);
    } else if v.named {
      PassReleases(names, s, v.holders, c);
      var s' := Pass(names, s, c);
      forall copy | copy in s'.copies ensures copy.cluster != c {
        assert copy == Copy(copy.cluster, names.name);
      }
    } else if c in v.wanting {
      PassRestoresName(names, s, v.holders, c);
    } else {
      PassStuck(names, s, v.holders, c);
    }
  }

  lemma {:induction false} CopiesGoWithHolders(names: Names, s: State, v: View, all: set<string>, order: seq<string>)
    requires Shows(s, v, all) && Members(order) <= all && names.name != "" && Accounted(names, s, v.holders)
    ensures Accounted(names, PassAll(names, s, order), Play(v, order).holders)
    decreases |order|
  {
    if order != [] {
      assert order[0] in Members(order) && Members(order[1..]) <= Members(order);
      PassShows(names, s, v, all, order[0]);
      PassAccounts(names, s, v, all, order[0]);
      CopiesGoWithHolders(names, Pass(names, s, order[0]), Next(v, order[0]), all, order[1..]);
    }
  }

  /** When the object is gone, so are the copies. */
  lemma EndsWithoutCopies(names: Names, s: State, holders: set<string>, order: seq<string>)
    requires Dying(s, holders) && holders != {} && names.name != ""
    requires Accounted(names, s, holders) && Ends(names, s, holders, order)
    ensures PassAll(names, s, order).copies == {}
  {
    var v := ViewOf(s, holders);
    assert Shows(s, v, holders);
    PassAllShows(names, s, v, holders, order);
    CopiesGoWithHolders(names, s, v, holders, order);
  }
}
