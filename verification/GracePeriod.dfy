/**
 Leaving the time windows: the virtual node is tainted, and a policy that reclaims by force
 evicts its pods once the grace period has run out. The clock is the taint's own TimeAdded,
 which has to survive the metadata merge of every reconcile in between.
 */
module GracePeriod {
  import opened Wrappers
  import opened NodeMetadata

  /** Seconds until an ordinary reconcile is repeated. */
  const SYNC_INTERVAL := 300

  datatype Policy = Policy(forceReclaim: bool, graceSeconds: int)

  /**
   One reconcile of a leased node. The code reads the clock again and again, so the taints are
   built at one time and the grace period is checked at another, with a look at the windows before
   each. The node's metadata and its taints are written separately, and either write may fail, as
   may the label on the physical node that comes before the check.
   */
  datatype Tick = Tick(
    policy: Policy,
    labels: map<string, string>, annotations: map<string, Text>, physicalTaints: seq<Taint>, disableDefaultTaint: bool,
    built: int, outsideAtBuild: bool,
    updateOk: bool, patchOk: bool, labelOk: bool,
    checked: int, outsideAtCheck: bool)

  datatype Outcome =
    | Synced(requeueAfter: int)
    | Evicted(requeueAfter: int)
    | Waiting(requeueAfter: int)
    | Failed(error: string)

  /** What the check of the grace period does, given the clock of the taint it finds. */
  function Decide(policy: Policy, taint: Option<Taint>, now: int): Outcome {
    if !policy.forceReclaim then Synced(SYNC_INTERVAL)
    else if policy.graceSeconds == 0 then Evicted(SYNC_INTERVAL)
    else if taint.None? then Failed("no out-of-time-windows taint found")
    else if taint.value.timeAdded.None? then Evicted(SYNC_INTERVAL)
    else if now - taint.value.timeAdded.value >= policy.graceSeconds then Evicted(SYNC_INTERVAL)
    else Waiting(policy.graceSeconds - (now - taint.value.timeAdded.value))
  }

  function FirstWindowTaint(taints: seq<Taint>): Option<Taint> {
    var found := WithKey(taints, OUT_OF_TIME_WINDOWS);
    if found == [] then None else Some(found[0])
  }

  ghost predicate IsFirstWindowTaint(taints: seq<Taint>, i: int) {
    && 0 <= i < |taints| && taints[i].key == "kubeocean.io/out-of-time-windows"
    && forall j :: 0 <= j < i ==> taints[j].key != "kubeocean.io/out-of-time-windows"
  }

  lemma {:induction false} FirstWindowTaintFound(taints: seq<Taint>)
    ensures FirstWindowTaint(taints).None? <==>
            forall i :: 0 <= i < |taints| ==> taints[i].key != "kubeocean.io/out-of-time-windows"
    ensures forall i :: IsFirstWindowTaint(taints, i) ==> FirstWindowTaint(taints) == Some(taints[i])
  {
    if taints != [] {
      FirstWindowTaintFound(taints[1..]);
      if taints[0].key != OUT_OF_TIME_WINDOWS {
        assert FirstWindowTaint(taints) == FirstWindowTaint(taints[1..]);
        forall i | 0 < i < |taints| ensures taints[i] == taints[1..][i - 1] {
        }
        forall i | IsFirstWindowTaint(taints, i) ensures IsFirstWindowTaint(taints[1..], i - 1) {
          forall j | 0 <= j < i - 1 ensures taints[1..][j].key != "kubeocean.io/out-of-time-windows" {
            assert taints[1..][j] == taints[j + 1];
          }
        }
        if FirstWindowTaint(taints).Some? {
          var i :| 0 <= i < |taints[1..]| && taints[1..][i].key == "kubeocean.io/out-of-time-windows";
          assert taints[i + 1].key == "kubeocean.io/out-of-time-windows";
        }
      }
    }
  }

  method HandleOutOfTimeWindows(taints: seq<Taint>, policy: Policy, now: int) returns (r: Outcome)
    ensures r == Decide(policy, FirstWindowTaint(taints), now)
    ensures !policy.forceReclaim ==> r == Synced(300)
    ensures policy.forceReclaim && policy.graceSeconds == 0 ==> r == Evicted(300)
    ensures policy.forceReclaim && policy.graceSeconds != 0 ==>
              (r.Failed? <==> forall i :: 0 <= i < |taints| ==> taints[i].key != "kubeocean.io/out-of-time-windows")
    ensures forall i :: IsFirstWindowTaint(taints, i) && policy.forceReclaim && policy.graceSeconds != 0 ==>
              match taints[i].timeAdded
              case None => r == Evicted(300)
              case Some(start) =>
                if now >= start + policy.graceSeconds then r == Evicted(300)
                else r == Waiting(start + policy.graceSeconds - now)
  {
    var existing: Option<Taint> := None;
    var i := 0;
    while i < |taints|
      invariant i <= |taints|
      invariant existing == None && FirstWindowTaint(taints) == FirstWindowTaint(taints[i..])
    {
      assert taints[i..][1..] == taints[i + 1..];
      if taints[i].key == OUT_OF_TIME_WINDOWS {
        existing := Some(taints[i]);
        break;
      }
      i := i + 1;
    }
    assert existing == FirstWindowTaint(taints);
    FirstWindowTaintFound(taints);
    if !policy.forceReclaim {
      return Synced(SYNC_INTERVAL);
    }
    if policy.graceSeconds == 0 {
      return Evicted(SYNC_INTERVAL);
    }
    if existing == None {
      return Failed("no out-of-time-windows taint found");
    }
    if existing.value.timeAdded == None {
      return Evicted(SYNC_INTERVAL);
    }
    var sinceTaint := now - existing.value.timeAdded.value;
    if sinceTaint >= policy.graceSeconds {
      return Evicted(SYNC_INTERVAL);
    }
    return Waiting(policy.graceSeconds - sinceTaint);
  }

  function Desired(t: Tick): Metadata {
    Metadata(t.labels, t.annotations,
             Transformed(t.physicalTaints, t.disableDefaultTaint, t.outsideAtBuild, t.policy.forceReclaim, t.built))
  }

  /** The virtual node as it is created. */
  function Created(t: Tick): Metadata {
    var desired := Desired(t);
    desired.(annotations := desired.annotations[EXPECTED_METADATA := Encoded(desired)])
  }

  /** The stored virtual node after a reconcile; None is a node that does not exist yet. */
  function Written(node: Option<Metadata>, t: Tick): (r: Option<Metadata>)
    ensures (node.Some? ==> Decodable(node.value)) ==> r.Some? ==> Decodable(r.value)
  {
    match node
    case None => if t.updateOk then Some(Created(t)) else None
    case Some(n) => Some(Round(n, Desired(t), t.updateOk, t.patchOk))
  }

  /** Whether the reconcile gets as far as the check of the grace period. */
  predicate Reached(node: Option<Metadata>, t: Tick)
    requires node.Some? ==> Decodable(node.value)
  {
    && t.updateOk && t.labelOk
    && (node.Some? && !t.patchOk ==> Merge(node.value, Desired(t)).taints == node.value.taints)
  }

  /** What the reconcile that met `node` comes to. */
  function OutcomeOf(node: Option<Metadata>, t: Tick): Outcome
    requires node.Some? ==> Decodable(node.value)
  {
    if !Reached(node, t) then Failed("failed to create or update virtual node")
    else if t.outsideAtCheck then Decide(t.policy, FirstWindowTaint(Written(node, t).value.taints), t.checked)
    else Synced(SYNC_INTERVAL)
  }

  /** The node after a whole run of reconciles. */
  function After(node: Option<Metadata>, ticks: seq<Tick>): (r: Option<Metadata>)
    ensures (node.Some? ==> Decodable(node.value)) ==> r.Some? ==> Decodable(r.value)
  {
    if ticks == [] then node else Written(After(node, ticks[..|ticks| - 1]), ticks[|ticks| - 1])
  }

  /**
   Pods are evicted only by a policy that reclaims by force, only outside the windows, and only by a
   reconcile whose writes have all succeeded or were not needed.
   */
  lemma {:induction false} EvictionNeedsForce(node: Option<Metadata>, ticks: seq<Tick>, t: Tick)
    requires node.Some? ==> Decodable(node.value)
    ensures OutcomeOf(After(node, ticks), t).Evicted? ==>
            && t.policy.forceReclaim && t.outsideAtCheck && t.updateOk && t.labelOk
            && (t.patchOk || After(node, ticks).None? ||
                Written(After(node, ticks), t).value.taints == After(node, ticks).value.taints)
    ensures Reached(After(node, ticks), t) && (!t.policy.forceReclaim || !t.outsideAtCheck) ==>
            OutcomeOf(After(node, ticks), t) == Synced(300)
    ensures Reached(After(node, ticks), t) && t.outsideAtCheck && t.policy.forceReclaim ==>
            t.policy.graceSeconds == 0 ==> OutcomeOf(After(node, ticks), t) == Evicted(300)
    ensures Reached(After(node, ticks), t) <==>
            && t.updateOk && t.labelOk
            && (t.patchOk || After(node, ticks).None? ||
                Merge(After(node, ticks).value, Desired(t)).taints == After(node, ticks).value.taints)
  {
  }

  /** A node that is created has everything that is wanted, and remembers exactly that. */
  lemma {:induction false} CreatedCarries(t: Tick)
    ensures Carries(Created(t), Desired(t)) && CarriesTaints(Created(t), Desired(t))
    ensures Created(t).labels == t.labels && Created(t).taints == Desired(t).taints
  {
  }

  // ---------- The clock ----------

  /** The time that the window taint on the node shows, and whether the stored metadata expects that taint. */
  datatype Clock = Clock(shown: Option<int>, expected: bool)

  /** The clock of a node that exists after one more reconcile. */
  function Ticked(c: Clock, t: Tick): Clock {
    var wanted :=
      if t.outsideAtBuild then (if c.shown.Some? then c.shown else Some(t.built))
      else if c.expected then None
      else c.shown;
    Clock(if t.patchOk then wanted else c.shown, t.outsideAtBuild)
  }

  /** The clock as a function of the history of reconciles alone; None while there is no node. */
  function History(c: Option<Clock>, ticks: seq<Tick>): Option<Clock> {
    if ticks == [] then c
    else
      var before := History(c, ticks[..|ticks| - 1]);
      var t := ticks[|ticks| - 1];
      if !t.updateOk then before
      else if before.None? then Some(Clock(if t.outsideAtBuild then Some(t.built) else None, t.outsideAtBuild))
      else Some(Ticked(before.value, t))
  }

  /** The node's taints and stored metadata are as the clock says. */
  ghost predicate ShowsClock(node: Option<Metadata>, clock: Option<Clock>) {
    && (node.Some? <==> clock.Some?)
    && (node.Some? ==> Decodable(node.value) && Shows(node.value, clock.value))
  }

  ghost predicate Shows(n: Metadata, c: Clock)
    requires Decodable(n)
  {
    && (c.expected <==> OUT_OF_TIME_WINDOWS in TaintKeys(Previous(n.annotations).value.taints))
    && ShowsTime(n.taints, c.shown)
  }

  ghost predicate ShowsTime(taints: seq<Taint>, shown: Option<int>) {
    var found := WithKey(taints, OUT_OF_TIME_WINDOWS);
    if shown.None? then found == [] else |found| == 1 && found[0].timeAdded == shown
  }

  lemma {:induction false} KeepClocksWithKey(clock: Option<int>, ts: seq<Taint>)
    ensures WithKey(KeepClocks(clock, ts), OUT_OF_TIME_WINDOWS) == KeepClocks(clock, WithKey(ts, OUT_OF_TIME_WINDOWS))
  {
    if ts != [] {
      KeepClocksWithKey(clock, ts[1..]);
      assert KeepClocks(clock, ts)[1..] == KeepClocks(clock, ts[1..]);
    }
  }

  lemma {:induction false} WithKeyPresent(ts: seq<Taint>, key: string)
    requires WithKey(ts, key) != []
    ensures key in TaintKeys(ts)
    ensures WithKey(ts, key)[0].key == key
  {
    if ts[0].key == key {
    } else {
      WithKeyPresent(ts[1..], key);
      var i :| 0 <= i < |ts[1..]| && ts[1..][i].key == key;
      assert ts[i + 1].key == key;
    }
  }

  /** A round that wants the window taint keeps the clock that is running, or starts one. */
  lemma {:induction false} MergedClock(existing: seq<Taint>, previous: seq<Taint>, current: seq<Taint>, wanted: Taint)
    requires WithKey(current, OUT_OF_TIME_WINDOWS) == [wanted]
    ensures WithKey(MergedTaints(existing, previous, current), OUT_OF_TIME_WINDOWS) ==
            [KeepClock(WindowClock(existing), wanted)]
  {
    var clock := WindowClock(existing);
    var excluded := TaintKeys(previous) + TaintKeys(current) + {VNODE_DELETING};
    WithKeyPresent(current, OUT_OF_TIME_WINDOWS);
    KeepClocksWithKey(clock, current);
    OthersWithKey(existing, excluded, OUT_OF_TIME_WINDOWS);
    WithKeyConcat(KeepClocks(clock, current), Others(existing, excluded), OUT_OF_TIME_WINDOWS);
  }

  lemma {:induction false} KeyPresentWithKey(ts: seq<Taint>, key: string)
    requires key in TaintKeys(ts)
    ensures WithKey(ts, key) != []
  {
    var i :| 0 <= i < |ts| && ts[i].key == key;
    if i > 0 && ts[0].key != key {
      assert ts[1..][i - 1].key == key;
      KeyPresentWithKey(ts[1..], key);
    }
  }

  lemma {:induction false} WindowTaintWanted(t: Tick)
    ensures OUT_OF_TIME_WINDOWS in TaintKeys(Desired(t).taints) <==> t.outsideAtBuild
    ensures WithKey(Desired(t).taints, OUT_OF_TIME_WINDOWS) ==
            if t.outsideAtBuild then [WindowTaint(t.policy.forceReclaim, t.built)] else []
  {
    TransformedWindowTaint(t.physicalTaints, t.disableDefaultTaint, t.outsideAtBuild, t.policy.forceReclaim, t.built);
    if t.outsideAtBuild {
      WithKeyPresent(Desired(t).taints, OUT_OF_TIME_WINDOWS);
    } else if OUT_OF_TIME_WINDOWS in TaintKeys(Desired(t).taints) {
      KeyPresentWithKey(Desired(t).taints, OUT_OF_TIME_WINDOWS);
    }
  }

  lemma {:induction false} ShownIsClock(taints: seq<Taint>, shown: Option<int>)
    requires ShowsTime(taints, shown)
    ensures WindowClock(taints) == shown
  {
    WindowClockWithKey(taints);
    if shown.Some? {
      WithKeyPresent(taints, OUT_OF_TIME_WINDOWS);
    }
  }

  /** The merged taints show what the clock wants. */
  lemma {:induction false} MergeShows(n: Metadata, c: Clock, t: Tick)
    requires Decodable(n) && Shows(n, c)
    ensures ShowsTime(Merge(n, Desired(t)).taints, Ticked(c, t.(patchOk := true)).shown)
  {
    var previous, current := Previous(n.annotations).value.taints, Desired(t).taints;
    WindowTaintWanted(t);
    if t.outsideAtBuild {
      ShownIsClock(n.taints, c.shown);
      MergedClock(n.taints, previous, current, WithKey(current, OUT_OF_TIME_WINDOWS)[0]);
    } else {
      assert OUT_OF_TIME_WINDOWS[13] != VNODE_DELETING[13];
      MergedWithKey(n.taints, previous, current, OUT_OF_TIME_WINDOWS);
    }
  }

  /** One reconcile moves the node's clock exactly as the history says. */
  lemma {:induction false} WrittenShowsClock(n: Metadata, c: Clock, t: Tick)
    requires Decodable(n) && Shows(n, c) && t.updateOk
    ensures var m := Round(n, Desired(t), true, t.patchOk); Decodable(m) && Shows(m, Ticked(c, t))
  {
    MergeShows(n, c, t);
    WindowTaintWanted(t);
  }

  lemma {:induction false} CreatedShowsClock(t: Tick)
    ensures Decodable(Created(t))
    ensures Shows(Created(t), Clock(if t.outsideAtBuild then Some(t.built) else None, t.outsideAtBuild))
  {
    WindowTaintWanted(t);
  }

  /** Over every run, whatever writes fail, the node shows the clock of its history. */
  lemma {:induction false} ClockOverRun(node: Option<Metadata>, clock: Option<Clock>, ticks: seq<Tick>)
    requires ShowsClock(node, clock)
    ensures ShowsClock(After(node, ticks), History(clock, ticks))
  {
    if ticks != [] {
      var before, t := ticks[..|ticks| - 1], ticks[|ticks| - 1];
      ClockOverRun(node, clock, before);
      if t.updateOk {
        if After(node, before).None? {
          CreatedShowsClock(t);
        } else {
          WrittenShowsClock(After(node, before).value, History(clock, before).value, t);
        }
      }
    }
  }

  /** What the check makes of a clock. */
  function Judged(shown: Option<int>, policy: Policy, now: int): Outcome {
    match shown
    case None => Failed("no out-of-time-windows taint found")
    case Some(start) =>
      if now - start >= policy.graceSeconds then Evicted(SYNC_INTERVAL) else Waiting(start + policy.graceSeconds - now)
  }

  lemma {:induction false} DecideJudges(taints: seq<Taint>, shown: Option<int>, policy: Policy, now: int)
    requires ShowsTime(taints, shown) && policy.forceReclaim && policy.graceSeconds != 0
    ensures Decide(policy, FirstWindowTaint(taints), now) == Judged(shown, policy, now)
  {
  }

  /** The decision of the last reconcile of a run depends on what came before only through the clock. */
  lemma {:induction false} OutcomeOverRun(node: Option<Metadata>, clock: Option<Clock>, ticks: seq<Tick>, t: Tick)
    requires ShowsClock(node, clock)
    requires Reached(After(node, ticks), t) && t.outsideAtCheck && t.policy.forceReclaim && t.policy.graceSeconds != 0
    ensures History(clock, ticks + [t]).Some?
    ensures OutcomeOf(After(node, ticks), t) == Judged(History(clock, ticks + [t]).value.shown, t.policy, t.checked)
  {
    var all := ticks + [t];
    assert all[..|all| - 1] == ticks && all[|all| - 1] == t;
    ClockOverRun(node, clock, all);
    DecideJudges(Written(After(node, ticks), t).value.taints, History(clock, all).value.shown, t.policy, t.checked);
  }

  // ---------- The deadline of one stay outside ----------

  predicate StayOutside(ticks: seq<Tick>) {
    forall i :: 0 <= i < |ticks| ==> ticks[i].outsideAtBuild
  }

  /** No node yet, or one without the window taint. */
  predicate Unstarted(clock: Option<Clock>) {
    clock.None? || clock.value.shown.None?
  }

  /** The first reconcile of the stay whose taints are written; on a node that it creates the one write is enough. */
  function StartTime(absent: bool, stay: seq<Tick>): Option<int> {
    if stay == [] then None
    else
      var before := StartTime(absent, stay[..|stay| - 1]);
      var t := stay[|stay| - 1];
      if before.Some? then before
      else if t.updateOk && (t.patchOk || absent) then Some(t.built)
      else None
  }

  lemma {:induction false} StayClock(clock: Option<Clock>, stay: seq<Tick>)
    requires Unstarted(clock) && StayOutside(stay)
    ensures History(clock, stay).Some? ==> History(clock, stay).value.shown == StartTime(clock.None?, stay)
    ensures History(clock, stay).None? ==> clock.None? && StartTime(true, stay).None?
    ensures clock.None? && History(clock, stay).Some? ==> StartTime(true, stay).Some?
  {
    if stay != [] {
      StayClock(clock, stay[..|stay| - 1]);
    }
  }

  /**
   Whatever happened before and whatever writes fail, in a stay outside the windows every reconcile that
   gets to the check evicts exactly if the grace period has passed since the first one whose taints were
   written, and otherwise asks to be called again at that very deadline.
   */
  lemma {:induction false} GraceDeadline(node: Option<Metadata>, clock: Option<Clock>, stay: seq<Tick>, t: Tick)
    requires ShowsClock(node, clock) && Unstarted(clock) && StayOutside(stay + [t])
    requires Reached(After(node, stay), t) && t.outsideAtCheck && t.policy.forceReclaim && t.policy.graceSeconds > 0
    ensures var start := StartTime(clock.None?, stay + [t]);
            start.Some? && OutcomeOf(After(node, stay), t) == Judged(start, t.policy, t.checked)
  {
    var all := stay + [t];
    OutcomeOverRun(node, clock, stay, t);
    StayClock(clock, all);
    StayReached(node, clock, stay, t);
  }

  /** The check is not reached before a clock has been started. */
  lemma {:induction false} StayReached(node: Option<Metadata>, clock: Option<Clock>, stay: seq<Tick>, t: Tick)
    requires ShowsClock(node, clock) && Unstarted(clock) && StayOutside(stay + [t]) && Reached(After(node, stay), t)
    ensures StartTime(clock.None?, stay + [t]).Some?
  {
    var all := stay + [t];
    assert all[..|stay|] == stay && all[|stay|] == t;
    forall i | 0 <= i < |stay| ensures stay[i].outsideAtBuild {
      assert all[i] == stay[i];
    }
    ClockOverRun(node, clock, stay);
    StayClock(clock, stay);
    if !t.patchOk && After(node, stay).Some? {
      MergeShows(After(node, stay).value, History(clock, stay).value, t);
      assert History(clock, stay).value.shown.Some?;
    }
  }

  /** If all writes succeed, that first reconcile is the first of the stay. */
  lemma {:induction false} StartsAtOnce(absent: bool, stay: seq<Tick>)
    requires stay != [] && stay[0].updateOk && stay[0].patchOk
    ensures StartTime(absent, stay) == Some(stay[0].built)
  {
    if |stay| == 1 {
      assert stay[..0] == [];
    } else {
      StartsAtOnce(absent, stay[..|stay| - 1]);
    }
  }

  // ---------- Coming back inside ----------

  lemma {:induction false} HistorySnoc(clock: Option<Clock>, ticks: seq<Tick>, t: Tick)
    ensures History(clock, ticks + [t]) ==
            var before := History(clock, ticks);
            if !t.updateOk then before
            else if before.None? then Some(Clock(if t.outsideAtBuild then Some(t.built) else None, t.outsideAtBuild))
            else Some(Ticked(before.value, t))
  {
    assert (ticks + [t])[..|ticks|] == ticks;
  }

  lemma {:induction false} HistoryOne(clock: Option<Clock>, t: Tick)
    ensures History(clock, [t]) ==
            if !t.updateOk then clock
            else if clock.None? then Some(Clock(if t.outsideAtBuild then Some(t.built) else None, t.outsideAtBuild))
            else Some(Ticked(clock.value, t))
  {
    HistorySnoc(clock, [], t);
    assert [] + [t] == [t];
  }

  /**
   A successful reconcile inside the windows drops the taint exactly if the stored metadata expects it. Then the
   next stay starts a new clock; otherwise the old one runs on.
   */
  lemma {:induction false} InsideRestartsClockIff(n: Metadata, c: Clock, inside: Tick, next: Tick)
    requires Decodable(n) && Shows(n, c) && c.shown.Some?
    requires !inside.outsideAtBuild && inside.updateOk && inside.patchOk
    requires next.outsideAtBuild && next.updateOk && next.patchOk
    ensures WithKey(After(Some(n), [inside]).value.taints, OUT_OF_TIME_WINDOWS) == [] <==> c.expected
    ensures ShowsTime(After(Some(n), [inside] + [next]).value.taints, if c.expected then Some(next.built) else c.shown)
  {
    HistoryOne(Some(c), inside);
    HistorySnoc(Some(c), [inside], next);
    ClockOverRun(Some(n), Some(c), [inside]);
    ClockOverRun(Some(n), Some(c), [inside] + [next]);
  }

  // ---------- A failed taint write ----------

  lemma {:induction false} UnexpectedClockStays(c: Clock, inside: seq<Tick>)
    requires !c.expected && forall i :: 0 <= i < |inside| ==> !inside[i].outsideAtBuild
    ensures History(Some(c), inside) == Some(c)
  {
    if inside != [] {
      UnexpectedClockStays(c, inside[..|inside| - 1]);
    }
  }

  /**
   If the taint write of the first reconcile inside the windows fails, the taint is taken for the user's own.
   Its clock runs on through the whole stay inside, whatever writes succeed there, and the next reconcile
   outside evicts as if the node had never come back.
   */
  lemma {:induction false} FailedPatchKeepsOldClock(n: Metadata, c: Clock, failed: Tick, inside: seq<Tick>, next: Tick)
    requires Decodable(n) && Shows(n, c) && c.shown.Some?
    requires !failed.outsideAtBuild && failed.updateOk && !failed.patchOk
    requires forall i :: 0 <= i < |inside| ==> !inside[i].outsideAtBuild
    requires next.outsideAtBuild && next.updateOk && next.patchOk && next.labelOk
    requires next.outsideAtCheck && next.policy.forceReclaim && next.policy.graceSeconds > 0
    ensures OutcomeOf(After(After(Some(n), [failed]), inside), next) == Judged(c.shown, next.policy, next.checked)
  {
    var m := After(Some(n), [failed]);
    HistoryOne(Some(c), failed);
    ClockOverRun(Some(n), Some(c), [failed]);
    var stale := Clock(c.shown, false);
    UnexpectedClockStays(stale, inside);
    HistorySnoc(Some(stale), inside, next);
    OutcomeOverRun(m, Some(stale), inside, next);
  }
}
