/** What a physical node leases to the virtual cluster: allocatable less foreign usage, then the policy's limits. */
module Leasing {
  import opened Wrappers
  import opened Quantities
  import opened Usage
  import opened Limits
  import Int64

  datatype Node = Node(capacity: Resources, allocatable: Resources)

  function Base(node: Node): Resources {
    if node.allocatable == map[] then node.capacity else node.allocatable
  }

  function Remaining(total: Quantity, used: Quantity): Quantity {
    if total.amount < used.amount then ZERO else Minus(total, used)
  }

  function Used(usage: Resources, k: string): Quantity {
    if k in usage then usage[k] else ZERO
  }

  /** What is left of a resource before the policy limits it. */
  function Free(node: Node, pods: seq<Pod>, k: string): Quantity
    requires k in Base(node)
  {
    Remaining(Base(node)[k], Used(UsageOf(pods, false), k))
  }

  function Leased(node: Node, pods: seq<Pod>, policy: Option<seq<Limit>>, k: string): Quantity
    requires k in Base(node)
  {
    var free := Free(node, pods, k);
    if policy.None? then free else Folded(free, k, policy.value)
  }

  function AtLeastZero(x: int): int {
    if x < 0 then 0 else x
  }

  /** What pods outside kubeocean take of a resource. */
  function ForeignDemand(pods: seq<Pod>, k: string): int {
    TotalDemand(Select(pods, false), k)
  }

  /** What is left is what the node has less what foreign pods demand, and never less than nothing. */
  lemma FreeIsRest(node: Node, pods: seq<Pod>, k: string)
    requires k in Base(node)
    ensures var total := if node.allocatable != map[] then node.allocatable else node.capacity;
            k in total && Free(node, pods, k).amount == AtLeastZero(total[k].amount - ForeignDemand(pods, k))
  {
    UsageIsDemand(pods, false, k);
  }

  /** `pods` is the answer of the API server; nothing is leased when the pods cannot be listed. */
  method CalculateAvailableResources(node: Node, pods: Option<seq<Pod>>, policy: Option<seq<Limit>>)
    returns (r: Result<Resources>)
    ensures r.Failure? <==> pods.None?
    ensures pods.Some? ==> r.value.Keys == (if node.allocatable != map[] then node.allocatable else node.capacity).Keys
    ensures pods.Some? ==> forall k :: k in Base(node) ==> r.value[k] == Leased(node, pods.value, policy, k)
    ensures pods.Some? && policy.None? ==>
              var total := if node.allocatable != map[] then node.allocatable else node.capacity;
              forall k :: k in total ==>
                r.value[k].amount == AtLeastZero(total[k].amount - ForeignDemand(pods.value, k))
  {
    if pods.Some? {
      forall k | k in Base(node)
        ensures Free(node, pods.value, k).amount == AtLeastZero(Base(node)[k].amount - ForeignDemand(pods.value, k))
      {
        FreeIsRest(node, pods.value, k);
      }
    }
    if pods.None? {
      return Failure("failed to calculate node resource usage");
    }
    var base := Base(node);
    var physical, _ := CalculateNodeResourceUsage(pods.value);
    var available := SubtractUsage(base, physical);
    if policy.Some? {
      available := ApplyResourceLimits(available, policy.value);
    }
    r := Success(available);
  }

  method SubtractUsage(base: Resources, usage: Resources) returns (r: Resources)
    ensures r.Keys == base.Keys
    ensures forall k :: k in base ==> r[k] == Remaining(base[k], Used(usage, k))
  {
    r := map[];
    var todo := base.Keys;
    while todo != {}
      invariant todo <= base.Keys
      invariant r.Keys == base.Keys - todo
      invariant forall k :: k in r ==> r[k] == Remaining(base[k], Used(usage, k))
      decreases todo
    {
      var k :| k in todo;
      var remaining := Minus(base[k], Used(usage, k));
      if remaining.amount < 0 {
        remaining := ZERO;
      }
      r := r[k := remaining];
      todo := todo - {k};
    }
  }

  // ---------- No over-lease ----------

  predicate TakesShare(l: Limit, k: string) {
    l.resource == k && l.percent.Some? && 0 < l.percent.value <= 100
  }

  /** No percentage step overflows: each scaled value times its percentage fits an int64. */
  ghost predicate ProductsFit(q: Quantity, k: string, limits: seq<Limit>) {
    forall i :: 0 <= i < |limits| && TakesShare(limits[i], k) ==>
      Scaled(Folded(q, k, limits[..i])) * limits[i].percent.value <= Int64.MAX
  }

  lemma TimesGrows(x: int, factor: int)
    requires x >= 0 && factor > 0
    ensures x <= x * factor
  {
  }

  lemma FittingShare(q: Quantity, percent: int)
    requires q.amount >= 0 && 0 < percent <= 100 && Scaled(q) * percent <= Int64.MAX
    ensures PercentLimit(q, percent).amount >= 0
  {
    TimesGrows(Scaled(q), percent);
    ShareExactIff(Scaled(q), percent);
    NonNegativeMultiple(Share(Scaled(q), percent), Unit(q.format));
  }

  lemma {:induction false} FoldStaysNonNegative(q: Quantity, k: string, limits: seq<Limit>)
    requires q.amount >= 0 && NonNegativeLimits(limits) && ProductsFit(q, k, limits)
    ensures Folded(q, k, limits).amount >= 0
  {
    if limits != [] {
      var n := |limits| - 1;
      var l := limits[n];
      forall i | 0 <= i < n && TakesShare(limits[..n][i], k)
        ensures Scaled(Folded(q, k, limits[..n][..i])) * limits[..n][i].percent.value <= Int64.MAX
      {
        assert limits[..n][..i] == limits[..i] && TakesShare(limits[i], k);
      }
      FoldStaysNonNegative(q, k, limits[..n]);
      var before := Folded(q, k, limits[..n]);
      LimitedAmount(before, l);
      if TakesShare(l, k) {
        FittingShare(before, l.percent.value);
      }
    }
  }

  /**
   The lease and the demand of foreign pods never exceed what the node can allocate, or its capacity if it
   reports nothing allocatable. When foreign pods demand more than that, nothing is leased. The lease is
   never negative as long as the percentage steps do not overflow.
   */
  lemma NoOverLease(node: Node, pods: seq<Pod>, policy: Option<seq<Limit>>, k: string)
    requires k in if node.allocatable != map[] then node.allocatable else node.capacity
    ensures k in Base(node)
    ensures var total := (if node.allocatable != map[] then node.allocatable else node.capacity)[k].amount;
            var foreign, leased := ForeignDemand(pods, k), Leased(node, pods, policy, k).amount;
            && (foreign <= total ==> leased + foreign <= total)
            && (foreign > total ==> leased <= 0)
            && (|| policy.None?
                || (NonNegativeLimits(policy.value) && ProductsFit(Free(node, pods, k), k, policy.value)) ==>
                  leased >= 0 && (foreign > total ==> leased == 0))
  {
    FreeIsRest(node, pods, k);
    var free := Free(node, pods, k);
    if policy.Some? {
      NeverIncreases(free, k, policy.value);
      if NonNegativeLimits(policy.value) && ProductsFit(free, k, policy.value) {
        FoldStaysNonNegative(free, k, policy.value);
      }
    }
  }

  /** Nor is less leased than the limits ask for: under quantity limits it is exactly the minimum. */
  lemma LeaseIsMinimum(node: Node, pods: seq<Pod>, limits: seq<Limit>, k: string)
    requires k in (if node.allocatable != map[] then node.allocatable else node.capacity) && QuantitiesOnly(limits)
    ensures k in Base(node)
    ensures var total := (if node.allocatable != map[] then node.allocatable else node.capacity)[k].amount;
            var free := AtLeastZero(total - ForeignDemand(pods, k));
            var leased := Leased(node, pods, Some(limits), k).amount;
            && leased <= free
            && (forall l :: l in limits && Binding(l, k) ==> leased <= l.quantity.value.amount)
            && (leased == free || exists l :: l in limits && Binding(l, k) && leased == l.quantity.value.amount)
  {
    FreeIsRest(node, pods, k);
    QuantitiesFoldToMinimum(Free(node, pods, k), k, limits);
  }

  /** Scaled values of at most MaxInt64 / 100 meet that condition. */
  lemma SmallStepsFit(q: Quantity, k: string, limits: seq<Limit>)
    requires forall i :: 0 <= i < |limits| && TakesShare(limits[i], k) ==> Small(Folded(q, k, limits[..i]))
    ensures ProductsFit(q, k, limits)
  {
    forall i | 0 <= i < |limits| && TakesShare(limits[i], k)
      ensures Scaled(Folded(q, k, limits[..i])) * limits[i].percent.value <= Int64.MAX
    {
      ProductBounds(Scaled(Folded(q, k, limits[..i])), limits[i].percent.value);
    }
  }

  /** So does every policy on a node whose free amount is at most MaxInt64 / 100 milli-units. */
  lemma {:induction false} MilliBoundSuffices(q: Quantity, k: string, limits: seq<Limit>)
    requires 0 <= q.amount <= (Int64.MAX / 100) * 1_000_000 && NonNegativeLimits(limits)
    ensures ProductsFit(q, k, limits) && Folded(q, k, limits).amount >= 0
    decreases |limits|
  {
    forall i | 0 <= i < |limits| ensures Small(Folded(q, k, limits[..i])) {
      MilliBoundSuffices(q, k, limits[..i]);
      NeverIncreases(q, k, limits[..i]);
      MilliFits(Folded(q, k, limits[..i]));
    }
    SmallStepsFit(q, k, limits);
    FoldStaysNonNegative(q, k, limits);
  }

  lemma MilliFits(q: Quantity)
    requires 0 <= q.amount <= (Int64.MAX / 100) * 1_000_000
    ensures 0 <= Scaled(q) <= Int64.MAX / 100
  {
  }

  // ---------- What the lease depends on ----------

  /** Pods that kubeocean manages have no influence: only the others count. */
  lemma LeaseIgnoresManagedPods(node: Node, a: seq<Pod>, b: seq<Pod>, policy: Option<seq<Limit>>, k: string)
    requires k in Base(node) && Select(a, false) == Select(b, false)
    ensures Leased(node, a, policy, k) == Leased(node, b, policy, k)
  {
    OtherSideIrrelevant(a, false);
    OtherSideIrrelevant(b, false);
  }

  /** In particular one more managed pod, at any place of the list. */
  lemma ManagedPodTakesNothing(node: Node, before: seq<Pod>, p: Pod, after: seq<Pod>, policy: Option<seq<Limit>>,
                               k: string)
    requires k in Base(node) && Managed(p)
    ensures Leased(node, before + [p] + after, policy, k) == Leased(node, before + after, policy, k)
  {
    SelectLast(before, p, false);
    SelectConcat(before + [p], after, false);
    SelectConcat(before, after, false);
    LeaseIgnoresManagedPods(node, before + [p] + after, before + after, policy, k);
  }

  ghost predicate NonNegativeRequests(pods: seq<Pod>) {
    forall p: Pod, c: Resources, k: string :: p in pods && c in Containers(p) && k in c ==> c[k].amount >= 0
  }

  lemma {:induction false} AskedNonNegative(containers: seq<Resources>, k: string)
    requires forall c: Resources :: c in containers && k in c ==> c[k].amount >= 0
    ensures Asked(containers, k) >= 0
  {
    if containers != [] {
      AskedNonNegative(containers[1..], k);
      assert containers[0] in containers;
    }
  }

  lemma {:induction false} DemandNonNegative(pods: seq<Pod>, k: string)
    requires NonNegativeRequests(pods)
    ensures TotalDemand(pods, k) >= 0
  {
    if pods != [] {
      assert pods[0] in pods;
      AskedNonNegative(Containers(pods[0]), k);
      AskedConcat(pods[0].init + pods[0].main, pods[0].ephemeral, k);
      AskedConcat(pods[0].init, pods[0].main, k);
      DemandNonNegative(pods[1..], k);
    }
  }

  /** Zeros of different formats are limited alike. */
  predicate Alike(a: Quantity, b: Quantity) {
    a == b || a.amount == 0 == b.amount
  }

  lemma {:induction false} FoldedAlike(a: Quantity, b: Quantity, k: string, limits: seq<Limit>)
    requires Alike(a, b)
    ensures Alike(Folded(a, k, limits), Folded(b, k, limits))
  {
    if limits != [] {
      var n := |limits| - 1;
      FoldedAlike(a, b, k, limits[..n]);
      LimitedAlike(Folded(a, k, limits[..n]), Folded(b, k, limits[..n]), limits[n]);
    }
  }

  lemma LimitedAlike(a: Quantity, b: Quantity, l: Limit)
    requires Alike(a, b)
    ensures Alike(Limited(a, l), Limited(b, l))
  {
    if a != b && l.percent.Some? && 0 < l.percent.value {
      ZeroShare(a, l.percent.value);
      ZeroShare(b, l.percent.value);
    }
  }

  lemma ZeroShare(q: Quantity, percent: int)
    requires q.amount == 0 && percent > 0
    ensures PercentLimit(q, percent).amount == 0
  {
    if percent <= 100 {
      SmallValuesFit(q, percent);
    }
  }

  /** Nor does the order of the pod list matter. */
  lemma LeaseIgnoresPodOrder(node: Node, a: seq<Pod>, b: seq<Pod>, policy: Option<seq<Limit>>, k: string)
    requires k in Base(node) && multiset(a) == multiset(b) && NonNegativeRequests(a)
    ensures Leased(node, a, policy, k).amount == Leased(node, b, policy, k).amount
  {
    UsageIgnoresOrder(a, b, false, k);
    UsageIsDemand(a, false, k);
    DemandNonNegative(Select(a, false), k);
    assert Alike(Free(node, a, k), Free(node, b, k));
    if policy.Some? {
      FoldedAlike(Free(node, a, k), Free(node, b, k), k, policy.value);
    }
  }
}
