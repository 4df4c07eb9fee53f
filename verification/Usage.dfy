/** Resource quantities: an amount in nano-units and the format that the amount is written in. */
module Quantities {
  datatype Format = DecimalSI | BinarySI | DecimalExponent

  datatype Quantity = Quantity(amount: int, format: Format)

  type Resources = map<string, Quantity>

  const NANO: int := 1_000_000_000
  const ZERO := Quantity(0, DecimalSI)

  /** Addition; a zero takes over the format of what is added to it. */
  function Plus(a: Quantity, b: Quantity): Quantity {
    Quantity(a.amount + b.amount, if a.amount == 0 then b.format else a.format)
  }

  function Minus(a: Quantity, b: Quantity): Quantity {
    Quantity(a.amount - b.amount, if a.amount == 0 then b.format else a.format)
  }

  /** A format shows only on an amount that is not zero. */
  predicate HasFormat(q: Quantity, f: Format) {
    q.amount == 0 || q.format == f
  }

  function Amount(m: Resources, k: string): int {
    if k in m then m[k].amount else 0
  }
}

/** What the pods of a physical node request, split by whether kubeocean manages them. */
module Usage {
  import opened Quantities
  import opened Permutations

  const CPU := "cpu"
  const MEMORY := "memory"
  const PODS := "pods"
  const MANAGED_BY := "kubeocean.io/managed-by"
  const MANAGED_BY_VALUE := "kubeocean"

  datatype PodPhase = Pending | Running | Succeeded | Failed | Unknown

  /** Each container is represented by its resource requests. */
  datatype Pod = Pod(labels: map<string, string>, phase: PodPhase, init: seq<Resources>, main: seq<Resources>,
                     ephemeral: seq<Resources>)

  predicate Managed(p: Pod) {
    MANAGED_BY in p.labels && p.labels[MANAGED_BY] == MANAGED_BY_VALUE
  }

  predicate Active(p: Pod) {
    p.phase.Pending? || p.phase.Running?
  }

  /** The lists added up resource by resource. */
  function Sum(a: Resources, b: Resources): Resources {
    map k | k in a.Keys + b.Keys :: Entry(a, b, k)
  }

  function Entry(a: Resources, b: Resources, k: string): Quantity
    requires k in a || k in b
  {
    if k in a && k in b then Plus(a[k], b[k]) else if k in a then a[k] else b[k]
  }

  function SumAll(start: Resources, lists: seq<Resources>): Resources {
    if lists == [] then start else Sum(SumAll(start, lists[..|lists| - 1]), lists[|lists| - 1])
  }

  const NO_REQUESTS: Resources := map[CPU := ZERO, MEMORY := ZERO]
  const NO_USAGE: Resources := map[CPU := ZERO, MEMORY := ZERO, PODS := ZERO]

  function Containers(p: Pod): seq<Resources> {
    p.init + p.main + p.ephemeral
  }

  function PodRequests(p: Pod): Resources {
    SumAll(NO_REQUESTS, Containers(p))
  }

  /** Usage after one more pod: its requests, and the pod itself. */
  function Counted(u: Resources, p: Pod): Resources {
    var sum := Sum(u, PodRequests(p));
    sum[PODS := Plus(if PODS in sum then sum[PODS] else ZERO, Quantity(NANO, DecimalSI))]
  }

  function UsageOf(pods: seq<Pod>, managed: bool): Resources {
    if pods == [] then NO_USAGE
    else
      var p := pods[|pods| - 1];
      var before := UsageOf(pods[..|pods| - 1], managed);
      if Active(p) && Managed(p) == managed then Counted(before, p) else before
  }

  lemma SumAllSnoc(start: Resources, lists: seq<Resources>, last: Resources)
    ensures SumAll(start, lists + [last]) == Sum(SumAll(start, lists), last)
  {
    assert (lists + [last])[..|lists|] == lists;
  }

  lemma {:induction false} SumAllConcat(start: Resources, a: seq<Resources>, b: seq<Resources>)
    ensures SumAll(start, a + b) == SumAll(SumAll(start, a), b)
  {
    if b == [] {
      assert a + b == a;
    } else {
      var n := |b| - 1;
      SumAllConcat(start, a, b[..n]);
      SumAllSnoc(start, a + b[..n], b[n]);
      assert a + b == a + b[..n] + [b[n]];
    }
  }

  lemma UsageSnoc(pods: seq<Pod>, p: Pod, managed: bool)
    ensures UsageOf(pods + [p], managed) ==
            if Active(p) && Managed(p) == managed then Counted(UsageOf(pods, managed), p) else UsageOf(pods, managed)
  {
    assert (pods + [p])[..|pods|] == pods;
  }

  // ---------- The loops ----------

  /** Adds a request list to a total in place, in whatever order the map is iterated. */
  method AddRequests(total: Resources, requests: Resources) returns (r: Resources)
    ensures r == Sum(total, requests)
  {
    r := total;
    var todo := requests.Keys;
    while todo != {}
      invariant PartlyAdded(total, requests, todo, r)
      decreases todo
    {
      var k :| k in todo;
      r := AddOne(total, requests, todo, r, k);
      todo := todo - {k};
    }
    AllAdded(total, requests, r);
  }

  lemma AllAdded(total: Resources, requests: Resources, r: Resources)
    requires PartlyAdded(total, requests, {}, r)
    ensures r == Sum(total, requests)
  {
  }

  /** The total with the requests that are no longer to do. */
  ghost predicate PartlyAdded(total: Resources, requests: Resources, todo: set<string>, r: Resources) {
    && todo <= requests.Keys
    && (forall k :: k in r <==> k in total || (k in requests && k !in todo))
    && (forall k :: k in todo && k in total ==> r[k] == total[k])
    && (forall k :: k in r && k !in todo ==> r[k] == Entry(total, requests, k))
  }

  method AddOne(total: Resources, requests: Resources, ghost todo: set<string>, r: Resources, k: string)
    returns (r': Resources)
    requires PartlyAdded(total, requests, todo, r) && k in todo
    ensures PartlyAdded(total, requests, todo - {k}, r')
  {
    var q := if k in r then Plus(r[k], requests[k]) else requests[k];
    assert q == Entry(total, requests, k);
    return r[k := q];
  }

  method AddContainers(total: Resources, lists: seq<Resources>) returns (r: Resources)
    ensures r == SumAll(total, lists)
  {
    r := total;
    for i := 0 to |lists|
      invariant r == SumAll(total, lists[..i])
    {
      SumAllSnoc(total, lists[..i], lists[i]);
      assert lists[..i + 1] == lists[..i] + [lists[i]];
      r := AddRequests(r, lists[i]);
    }
    assert lists[..|lists|] == lists;
  }

  /** Ephemeral containers have a type of their own and are added in a second pass. */
  method CalculatePodResourceRequests(p: Pod) returns (r: Resources)
    ensures r == PodRequests(p)
    ensures forall k :: Amount(r, k) == Asked(p.init, k) + Asked(p.main, k) + Asked(p.ephemeral, k)
    ensures forall k :: k in r <==>
              k == "cpu" || k == "memory" || exists c :: c in p.init + p.main + p.ephemeral && k in c
  {
    forall k ensures Amount(PodRequests(p), k) == Asked(p.init, k) + Asked(p.main, k) + Asked(p.ephemeral, k) {
      PodAsks(p, k);
    }
    forall k ensures k in PodRequests(p) <==> k in NO_REQUESTS || exists c :: c in Containers(p) && k in c {
      RequestsReport(NO_REQUESTS, Containers(p), k);
    }
    r := AddContainers(NO_REQUESTS, p.init + p.main);
    r := AddContainers(r, p.ephemeral);
    SumAllConcat(NO_REQUESTS, p.init + p.main, p.ephemeral);
  }

  method CalculateNodeResourceUsage(pods: seq<Pod>) returns (physical: Resources, kubeocean: Resources)
    ensures physical == UsageOf(pods, false)
    ensures kubeocean == UsageOf(pods, true)
  {
    physical, kubeocean := NO_USAGE, NO_USAGE;
    for i := 0 to |pods|
      invariant physical == UsageOf(pods[..i], false)
      invariant kubeocean == UsageOf(pods[..i], true)
    {
      assert pods[..i + 1][..i] == pods[..i];
      if Active(pods[i]) {
        var requests := CalculatePodResourceRequests(pods[i]);
        if Managed(pods[i]) {
          kubeocean := CountPod(kubeocean, requests);
        } else {
          physical := CountPod(physical, requests);
        }
      }
    }
    assert pods[..|pods|] == pods;
  }

  method CountPod(usage: Resources, requests: Resources) returns (r: Resources)
    ensures var sum := Sum(usage, requests);
            r == sum[PODS := Plus(if PODS in sum then sum[PODS] else ZERO, Quantity(NANO, DecimalSI))]
  {
    r := AddRequests(usage, requests);
    var count := if PODS in r then r[PODS] else ZERO;
    r := r[PODS := Plus(count, Quantity(NANO, DecimalSI))];
  }

  // ---------- Conservation ----------

  /** What the containers ask for of one resource. */
  function Asked(containers: seq<Resources>, k: string): int {
    if containers == [] then 0 else Amount(containers[0], k) + Asked(containers[1..], k)
  }

  /** What one pod takes of a resource: the requests of its containers, and one unit of "pods". */
  function Demand(p: Pod, k: string): int {
    if p.phase != Pending && p.phase != Running then 0
    else Asked(p.init, k) + Asked(p.main, k) + Asked(p.ephemeral, k) + if k == "pods" then 1_000_000_000 else 0
  }

  function TotalDemand(pods: seq<Pod>, k: string): int {
    if pods == [] then 0 else Demand(pods[0], k) + TotalDemand(pods[1..], k)
  }

  function Select(pods: seq<Pod>, managed: bool): (r: seq<Pod>)
    ensures forall p :: p in r <==> p in pods && Managed(p) == managed
    ensures forall p: Pod :: p in r ==>
              (managed <==>
               "kubeocean.io/managed-by" in p.labels && p.labels["kubeocean.io/managed-by"] == "kubeocean")
  {
    if pods == [] then []
    else if Managed(pods[0]) == managed then [pods[0]] + Select(pods[1..], managed)
    else Select(pods[1..], managed)
  }

  lemma {:induction false} AskedSnoc(containers: seq<Resources>, c: Resources, k: string)
    ensures Asked(containers + [c], k) == Asked(containers, k) + Amount(c, k)
  {
    if containers != [] {
      assert (containers + [c])[1..] == containers[1..] + [c];
      AskedSnoc(containers[1..], c, k);
    }
  }

  lemma {:induction false} SumAllAsked(start: Resources, lists: seq<Resources>, k: string)
    ensures Amount(SumAll(start, lists), k) == Amount(start, k) + Asked(lists, k)
  {
    if lists != [] {
      var n := |lists| - 1;
      SumAllAsked(start, lists[..n], k);
      AskedSnoc(lists[..n], lists[n], k);
      assert lists == lists[..n] + [lists[n]];
    }
  }

  lemma {:induction false} AskedConcat(a: seq<Resources>, b: seq<Resources>, k: string)
    ensures Asked(a + b, k) == Asked(a, k) + Asked(b, k)
  {
    if a == [] {
      assert a + b == b;
    } else {
      assert (a + b)[1..] == a[1..] + b;
      AskedConcat(a[1..], b, k);
    }
  }

  /** A pod's requests are those of its init, regular and ephemeral containers. */
  lemma PodAsks(p: Pod, k: string)
    ensures Amount(PodRequests(p), k) == Asked(p.init, k) + Asked(p.main, k) + Asked(p.ephemeral, k)
  {
    SumAllAsked(NO_REQUESTS, Containers(p), k);
    AskedConcat(p.init + p.main, p.ephemeral, k);
    AskedConcat(p.init, p.main, k);
  }

  lemma CountedDemand(u: Resources, p: Pod, k: string)
    requires Active(p)
    ensures Amount(Counted(u, p), k) == Amount(u, k) + Demand(p, k)
  {
    PodAsks(p, k);
    assert Amount(Sum(u, PodRequests(p)), k) == Amount(u, k) + Amount(PodRequests(p), k);
  }

  lemma {:induction false} TotalDemandConcat(a: seq<Pod>, b: seq<Pod>, k: string)
    ensures TotalDemand(a + b, k) == TotalDemand(a, k) + TotalDemand(b, k)
  {
    if a == [] {
      assert a + b == b;
    } else {
      assert (a + b)[1..] == a[1..] + b;
      TotalDemandConcat(a[1..], b, k);
    }
  }

  lemma {:induction false} SelectConcat(a: seq<Pod>, b: seq<Pod>, managed: bool)
    ensures Select(a + b, managed) == Select(a, managed) + Select(b, managed)
  {
    if a == [] {
      assert a + b == b;
    } else {
      assert (a + b)[1..] == a[1..] + b;
      SelectConcat(a[1..], b, managed);
    }
  }

  /** Each side of the split is the demand of its own pods. */
  lemma {:induction false} UsageIsDemand(pods: seq<Pod>, managed: bool, k: string)
    ensures Amount(UsageOf(pods, managed), k) == TotalDemand(Select(pods, managed), k)
  {
    if pods != [] {
      var n := |pods| - 1;
      var before, p := pods[..n], pods[n];
      UsageIsDemand(before, managed, k);
      assert pods == before + [p];
      SelectLast(before, p, managed);
      TotalDemandConcat(Select(before, managed), [p], k);
      assert TotalDemand([p], k) == Demand(p, k);
      if Active(p) {
        CountedDemand(UsageOf(before, managed), p, k);
      }
    }
  }

  /** No request is lost or counted twice: the two sides make up the demand of all pods. */
  lemma {:induction false} UsageConserved(pods: seq<Pod>, k: string)
    ensures Amount(UsageOf(pods, false), k) + Amount(UsageOf(pods, true), k) == TotalDemand(pods, k)
  {
    UsageIsDemand(pods, false, k);
    UsageIsDemand(pods, true, k);
    SplitDemand(pods, k);
  }

  lemma {:induction false} SplitDemand(pods: seq<Pod>, k: string)
    ensures TotalDemand(Select(pods, false), k) + TotalDemand(Select(pods, true), k) == TotalDemand(pods, k)
  {
    if pods != [] {
      SplitDemand(pods[1..], k);
      var mine := Managed(pods[0]);
      assert Select(pods, mine)[1..] == Select(pods[1..], mine);
    }
  }

  lemma TakeOut(pods: seq<Pod>, j: nat, k: string)
    requires j < |pods|
    ensures TotalDemand(pods, k) == TotalDemand(RemoveAt(pods, j), k) + Demand(pods[j], k)
  {
    var tail := [pods[j]] + pods[j + 1..];
    assert pods == pods[..j] + tail;
    TotalDemandConcat(pods[..j], tail, k);
    TotalDemandConcat(pods[..j], pods[j + 1..], k);
    assert tail[1..] == pods[j + 1..];
  }

  lemma {:induction false} DemandOfPermutation(a: seq<Pod>, b: seq<Pod>, k: string)
    requires multiset(a) == multiset(b)
    ensures TotalDemand(a, k) == TotalDemand(b, k)
  {
    if a == [] {
      EmptyPermutation(a, b);
    } else {
      var j := FindHead(a, b);
      DemandOfPermutation(a[1..], RemoveAt(b, j), k);
      TakeOut(b, j, k);
    }
  }

  lemma {:induction false} SelectMultiset(pods: seq<Pod>, managed: bool, p: Pod)
    ensures multiset(Select(pods, managed))[p] == if Managed(p) == managed then multiset(pods)[p] else 0
  {
    if pods != [] {
      SelectMultiset(pods[1..], managed, p);
      assert pods == [pods[0]] + pods[1..];
    }
  }

  lemma {:induction false} AlwaysReported(pods: seq<Pod>, managed: bool)
    ensures var u := UsageOf(pods, managed); "cpu" in u && "memory" in u && "pods" in u
  {
    if pods != [] {
      AlwaysReported(pods[..|pods| - 1], managed);
    }
  }

  /** cpu, memory and pods are always reported, and any other resource exactly if a counted container asks for it. */
  lemma {:induction false} UsageReports(pods: seq<Pod>, managed: bool, k: string)
    ensures k in UsageOf(pods, managed) <==>
            k == "cpu" || k == "memory" || k == "pods" || exists p :: p in pods && CountedWith(p, managed, k)
  {
    if pods != [] {
      var n := |pods| - 1;
      var before, p := pods[..n], pods[n];
      UsageReports(before, managed, k);
      assert pods == before + [p];
      AlwaysReported(before, managed);
      CountedReports(UsageOf(before, managed), p, managed, k);
      assert (exists q :: q in pods && CountedWith(q, managed, k)) <==>
             CountedWith(p, managed, k) || exists q :: q in before && CountedWith(q, managed, k);
    }
  }

  lemma CountedReports(u: Resources, p: Pod, managed: bool, k: string)
    requires "cpu" in u && "memory" in u && "pods" in u
    ensures Active(p) && Managed(p) == managed ==> (k in Counted(u, p) <==> k in u || CountedWith(p, managed, k))
    ensures !(Active(p) && Managed(p) == managed) ==> !CountedWith(p, managed, k)
  {
    RequestsReport(NO_REQUESTS, Containers(p), k);
  }

  ghost predicate CountedWith(p: Pod, managed: bool, k: string) {
    && (p.phase == Pending || p.phase == Running) && Managed(p) == managed
    && exists c :: c in p.init + p.main + p.ephemeral && k in c
  }

  lemma {:induction false} RequestsReport(start: Resources, lists: seq<Resources>, k: string)
    ensures k in SumAll(start, lists) <==> k in start || exists c :: c in lists && k in c
  {
    if lists != [] {
      var n := |lists| - 1;
      RequestsReport(start, lists[..n], k);
      assert lists == lists[..n] + [lists[n]];
    }
  }

  ghost predicate AllFormat(lists: seq<Resources>, k: string, f: Format) {
    forall c :: c in lists && k in c ==> HasFormat(c[k], f)
  }

  lemma {:induction false} SumKeepsFormat(start: Resources, lists: seq<Resources>, k: string, f: Format)
    requires AllFormat(lists, k, f) && (k in start ==> HasFormat(start[k], f))
    ensures k in SumAll(start, lists) ==> HasFormat(SumAll(start, lists)[k], f)
  {
    if lists != [] {
      var n := |lists| - 1;
      SumKeepsFormat(start, lists[..n], k, f);
    }
  }

  /** A resource that every container requests in one format, as memory in powers of two, is added up in that format. */
  lemma {:induction false} UsageKeepsFormat(pods: seq<Pod>, managed: bool, k: string, f: Format)
    requires forall p :: p in pods ==> AllFormat(Containers(p), k, f)
    requires k == "pods" ==> f == DecimalSI
    ensures k in UsageOf(pods, managed) ==> HasFormat(UsageOf(pods, managed)[k], f)
  {
    if pods != [] {
      var n := |pods| - 1;
      UsageKeepsFormat(pods[..n], managed, k, f);
      SumKeepsFormat(NO_REQUESTS, Containers(pods[n]), k, f);
    }
  }

  /** The order in which the API server lists the pods has no effect on either side. */
  lemma UsageIgnoresOrder(a: seq<Pod>, b: seq<Pod>, managed: bool, k: string)
    requires multiset(a) == multiset(b)
    ensures Amount(UsageOf(a, managed), k) == Amount(UsageOf(b, managed), k)
  {
    forall p ensures multiset(Select(a, managed))[p] == multiset(Select(b, managed))[p] {
      SelectMultiset(a, managed, p);
      SelectMultiset(b, managed, p);
    }
    DemandOfPermutation(Select(a, managed), Select(b, managed), k);
    UsageIsDemand(a, managed, k);
    UsageIsDemand(b, managed, k);
  }

  /** One side depends on its own pods only, down to the format of every quantity. */
  lemma {:induction false} OtherSideIrrelevant(pods: seq<Pod>, managed: bool)
    ensures UsageOf(pods, managed) == UsageOf(Select(pods, managed), managed)
  {
    if pods != [] {
      var n := |pods| - 1;
      var before, p := pods[..n], pods[n];
      OtherSideIrrelevant(before, managed);
      assert pods == before + [p];
      UsageSnoc(before, p, managed);
      SelectLast(before, p, managed);
      if Managed(p) == managed {
        UsageSnoc(Select(before, managed), p, managed);
      }
    }
  }

  lemma SelectLast(pods: seq<Pod>, p: Pod, managed: bool)
    ensures Select(pods + [p], managed) == if Managed(p) == managed then Select(pods, managed) + [p]
            else Select(pods, managed)
  {
    SelectConcat(pods, [p], managed);
    assert Select([p], managed) == if Managed(p) == managed then [p] else [];
  }
}
