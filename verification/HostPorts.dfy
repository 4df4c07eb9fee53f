/** Host ports of the pods on a physical node, reserved on the virtual node by one fake pod. */
module HostPorts {
  import opened Wrappers
  import opened Permutations
  import Lexicographic
  import Ports

  const MANAGED_BY := "kubeocean.io/managed-by"
  const MANAGED_BY_VALUE := "kubeocean"
  const ANY_IP := "0.0.0.0"
  const TCP := "TCP"

  datatype Port = Port(name: string, containerPort: int, hostPort: int, protocol: string, hostIP: string)

  datatype Container = Container(name: string, ports: seq<Port>)

  datatype Pod = Pod(
    namespace: string, name: string, nodeName: string, labels: map<string, string>,
    main: seq<Container>, init: seq<Container>)

  predicate Managed(p: Pod) {
    MANAGED_BY in p.labels && p.labels[MANAGED_BY] == MANAGED_BY_VALUE
  }

  predicate HasHostPort(p: Pod) {
    exists c, port :: c in p.main + p.init && port in c.ports && port.hostPort > 0
  }

  /** Pods that are scheduled, not kubeocean's own, and ask for a host port. */
  predicate Processed(p: Pod) {
    p.nodeName != "" && !Managed(p) && HasHostPort(p)
  }

  // ---------- What is collected ----------

  function Entry(p: Pod, c: Container, port: Port): Port {
    Port(p.namespace + "/" + p.name + "/" + c.name + "/" + port.name, port.hostPort, port.hostPort, port.protocol,
         port.hostIP)
  }

  function OfPorts(p: Pod, c: Container, ports: seq<Port>): seq<Port> {
    if ports == [] then []
    else
      var n := |ports| - 1;
      OfPorts(p, c, ports[..n]) + if ports[n].hostPort != 0 then [Entry(p, c, ports[n])] else []
  }

  function OfContainers(p: Pod, cs: seq<Container>): seq<Port> {
    if cs == [] then []
    else
      var n := |cs| - 1;
      OfContainers(p, cs[..n]) + OfPorts(p, cs[n], cs[n].ports)
  }

  function OfPod(p: Pod): seq<Port> {
    if Processed(p) then OfContainers(p, p.main) + OfContainers(p, p.init) else []
  }

  function Collected(pods: seq<Pod>): seq<Port> {
    Flat(Map(OfPod, pods))
  }

  function Defaulted(p: Port): Port {
    p.(hostIP := if p.hostIP == "" then ANY_IP else p.hostIP, protocol := if p.protocol == "" then TCP else p.protocol)
  }

  /** The sort's comparison: host IP, then protocol, then port. */
  predicate Before(a: Port, b: Port) {
    if a.hostIP != b.hostIP then Lexicographic.Less(a.hostIP, b.hostIP)
    else if a.protocol != b.protocol then Lexicographic.Less(a.protocol, b.protocol)
    else a.hostPort < b.hostPort
  }

  ghost predicate Sorted(ports: seq<Port>) {
    forall i, j :: 0 <= i < j < |ports| ==> !Before(ports[j], ports[i])
  }

  /** Whatever an unstable sort may make of the ports of these pods. */
  ghost predicate IsCollection(ports: seq<Port>, pods: seq<Pod>) {
    Sorted(ports) && multiset(ports) == multiset(Map(Defaulted, Collected(pods)))
  }

  function Renamed(ports: seq<Port>): seq<Port> {
    seq(|ports|, i requires 0 <= i < |ports| => ports[i].(name := "port-" + Ports.Itoa(i)))
  }

  /** No two ports get the same name, as Kubernetes demands. */
  lemma NamesApart(ports: seq<Port>)
    ensures forall i, j :: 0 <= i < j < |ports| ==> Renamed(ports)[i].name != Renamed(ports)[j].name
  {
    forall i: nat, j: nat | i < j < |ports| ensures Renamed(ports)[i].name != Renamed(ports)[j].name {
      Ports.DigitsOfItoa(i);
      Ports.DigitsOfItoa(j);
      assert Renamed(ports)[i].name[5..] == Ports.Itoa(i) && Renamed(ports)[j].name[5..] == Ports.Itoa(j);
    }
  }

  // ---------- The comparison is a total preorder ----------

  predicate SameKey(a: Port, b: Port) {
    a.hostIP == b.hostIP && a.protocol == b.protocol && a.hostPort == b.hostPort
  }

  lemma BeforeTotal(a: Port, b: Port)
    ensures !Before(a, b) && !Before(b, a) <==> SameKey(a, b)
    ensures !(Before(a, b) && Before(b, a))
  {
    Lexicographic.Trichotomy(a.hostIP, b.hostIP);
    Lexicographic.Trichotomy(a.protocol, b.protocol);
  }

  lemma BeforeTransitive(a: Port, b: Port, c: Port)
    requires Before(a, b) && Before(b, c)
    ensures Before(a, c)
  {
    if a.hostIP != b.hostIP && b.hostIP != c.hostIP {
      Lexicographic.Transitive(a.hostIP, b.hostIP, c.hostIP);
      Lexicographic.Irreflexive(c.hostIP);
    } else if a.hostIP == b.hostIP == c.hostIP && a.protocol != b.protocol && b.protocol != c.protocol {
      Lexicographic.Transitive(a.protocol, b.protocol, c.protocol);
      Lexicographic.Irreflexive(c.protocol);
    }
  }

  lemma NotBeforeTransitive(a: Port, b: Port, c: Port)
    requires !Before(b, a) && !Before(c, b)
    ensures !Before(c, a)
  {
    BeforeTotal(a, b);
    BeforeTotal(b, c);
    BeforeTotal(a, c);
    if Before(a, b) && Before(b, c) {
      BeforeTransitive(a, b, c);
    }
  }

  lemma CollectedSnoc(pods: seq<Pod>, p: Pod)
    ensures Collected(pods + [p]) == Collected(pods) + OfPod(p)
  {
    assert Map(OfPod, pods + [p]) == Map(OfPod, pods) + [OfPod(p)];
    FlatSnoc(Map(OfPod, pods), OfPod(p));
  }

  // ---------- The loops ----------

  method PodHasHostPort(p: Pod) returns (r: bool)
    ensures r == HasHostPort(p)
  {
    var inMain := ContainersHaveHostPort(p.main);
    if inMain {
      return true;
    }
    r := ContainersHaveHostPort(p.init);
  }

  method ContainersHaveHostPort(cs: seq<Container>) returns (r: bool)
    ensures r <==> exists c, port :: c in cs && port in c.ports && port.hostPort > 0
  {
    for i := 0 to |cs|
      invariant forall c, port :: c in cs[..i] && port in c.ports ==> port.hostPort <= 0
    {
      for j := 0 to |cs[i].ports|
        invariant forall port :: port in cs[i].ports[..j] ==> port.hostPort <= 0
      {
        if cs[i].ports[j].hostPort > 0 {
          assert cs[i] in cs && cs[i].ports[j] in cs[i].ports;
          return true;
        }
      }
    }
    return false;
  }

  method CollectPorts(p: Pod, c: Container) returns (r: seq<Port>)
    ensures r == OfPorts(p, c, c.ports)
  {
    r := [];
    for i := 0 to |c.ports|
      invariant r == OfPorts(p, c, c.ports[..i])
    {
      assert c.ports[..i + 1][..i] == c.ports[..i];
      if c.ports[i].hostPort != 0 {
        r := r + [Entry(p, c, c.ports[i])];
      }
    }
    assert c.ports[..|c.ports|] == c.ports;
  }

  method CollectContainers(p: Pod, cs: seq<Container>) returns (r: seq<Port>)
    ensures r == OfContainers(p, cs)
  {
    r := [];
    for i := 0 to |cs|
      invariant r == OfContainers(p, cs[..i])
    {
      assert cs[..i + 1][..i] == cs[..i];
      var more := CollectPorts(p, cs[i]);
      r := r + more;
    }
    assert cs[..|cs|] == cs;
  }

  /** Collects, fills in defaults and sorts. */
  method CollectHostPorts(pods: seq<Pod>) returns (r: seq<Port>)
    ensures IsCollection(r, pods)
    ensures forall q :: q in r <==> exists p :: p in pods && PodReserves(p, q)
    ensures |r| == NumberOfHostPorts(pods)
    ensures forall i, j :: 0 <= i < j < |r| ==> InOrder(r[i], r[j])
  {
    r := [];
    for i := 0 to |pods|
      invariant r == Collected(pods[..i])
    {
      CollectedSnoc(pods[..i], pods[i]);
      assert pods[..i + 1] == pods[..i] + [pods[i]];
      var has := PodHasHostPort(pods[i]);
      if pods[i].nodeName != "" && !Managed(pods[i]) && has {
        var main := CollectContainers(pods[i], pods[i].main);
        var init := CollectContainers(pods[i], pods[i].init);
        r := r + (main + init);
      }
    }
    assert pods[..|pods|] == pods;
    r := FillDefaults(r);
    r := Sort(r);
    CollectionReserves(r, pods);
    forall i, j | 0 <= i < j < |r| ensures InOrder(r[i], r[j]) {
      NotBeforeInOrder(r[i], r[j]);
    }
  }

  // ---------- What is collected, in the pods' own terms ----------

  /** The port `q` reserves the host port of one port of a container, under the pod's name. */
  predicate Reserves(p: Pod, c: Container, port: Port, q: Port) {
    && port.hostPort != 0 && q.hostPort == port.hostPort && q.containerPort == port.hostPort
    && q.protocol == (if port.protocol == "" then "TCP" else port.protocol)
    && q.hostIP == (if port.hostIP == "" then "0.0.0.0" else port.hostIP)
    && q.name == p.namespace + "/" + p.name + "/" + c.name + "/" + port.name
  }

  predicate ContainerReserves(p: Pod, c: Container, q: Port) {
    exists port :: port in c.ports && Reserves(p, c, port, q)
  }

  /** Only pods count that are scheduled, are not kubeocean's own and have a positive host port. */
  ghost predicate Counts(p: Pod) {
    && p.nodeName != ""
    && !("kubeocean.io/managed-by" in p.labels && p.labels["kubeocean.io/managed-by"] == "kubeocean")
    && exists c, port :: (c in p.main || c in p.init) && port in c.ports && port.hostPort > 0
  }

  ghost predicate PodReserves(p: Pod, q: Port) {
    Counts(p) && exists c :: (c in p.main || c in p.init) && ContainerReserves(p, c, q)
  }

  function NumberOfPorts(ports: seq<Port>): nat {
    if ports == [] then 0 else (if ports[0].hostPort != 0 then 1 else 0) + NumberOfPorts(ports[1..])
  }

  function NumberInContainers(cs: seq<Container>): nat {
    if cs == [] then 0 else NumberOfPorts(cs[0].ports) + NumberInContainers(cs[1..])
  }

  ghost function NumberOfHostPorts(pods: seq<Pod>): nat {
    if pods == [] then 0
    else (if Counts(pods[0]) then NumberInContainers(pods[0].main) + NumberInContainers(pods[0].init) else 0) +
         NumberOfHostPorts(pods[1..])
  }

  /** By host IP, then by protocol, then by port. */
  predicate InOrder(a: Port, b: Port) {
    && Lexicographic.AtMost(a.hostIP, b.hostIP)
    && (a.hostIP == b.hostIP ==> Lexicographic.AtMost(a.protocol, b.protocol))
    && (a.hostIP == b.hostIP && a.protocol == b.protocol ==> a.hostPort <= b.hostPort)
  }

  lemma NotBeforeInOrder(a: Port, b: Port)
    requires !Before(b, a)
    ensures InOrder(a, b)
  {
    Lexicographic.Trichotomy(a.hostIP, b.hostIP);
    Lexicographic.Trichotomy(a.protocol, b.protocol);
  }

  lemma CountsIff(p: Pod)
    ensures Counts(p) <==> Processed(p)
  {
    if c, port :| (c in p.main || c in p.init) && port in c.ports && port.hostPort > 0 {
      assert c in p.main + p.init;
    }
  }

  lemma {:induction false} PortsReserve(p: Pod, c: Container, ports: seq<Port>, q: Port)
    ensures (exists e :: e in OfPorts(p, c, ports) && q == Defaulted(e)) <==>
            exists port :: port in ports && Reserves(p, c, port, q)
  {
    if ports != [] {
      var n := |ports| - 1;
      PortsReserve(p, c, ports[..n], q);
      assert ports == ports[..n] + [ports[n]];
      assert ports[n].hostPort != 0 ==> (q == Defaulted(Entry(p, c, ports[n])) <==> Reserves(p, c, ports[n], q));
      if ports[n].hostPort != 0 {
        assert Entry(p, c, ports[n]) in OfPorts(p, c, ports);
      }
      if Reserves(p, c, ports[n], q) {
        assert ports[n] in ports;
      }
      if e :| e in OfPorts(p, c, ports[..n]) && q == Defaulted(e) {
        assert e in OfPorts(p, c, ports);
      }
    }
  }

  lemma {:induction false} ContainersReserve(p: Pod, cs: seq<Container>, q: Port)
    ensures (exists e :: e in OfContainers(p, cs) && q == Defaulted(e)) <==>
            exists c :: c in cs && ContainerReserves(p, c, q)
  {
    if cs != [] {
      var n := |cs| - 1;
      ContainersReserve(p, cs[..n], q);
      PortsReserve(p, cs[n], cs[n].ports, q);
      assert cs == cs[..n] + [cs[n]];
      assert cs[n] in cs;
      assert forall e :: e in OfContainers(p, cs) <==>
               e in OfContainers(p, cs[..n]) || e in OfPorts(p, cs[n], cs[n].ports);
    }
  }

  lemma PodPortsReserve(p: Pod, q: Port)
    ensures (exists e :: e in OfPod(p) && q == Defaulted(e)) <==> PodReserves(p, q)
  {
    CountsIff(p);
    if Processed(p) {
      ContainersReserve(p, p.main, q);
      ContainersReserve(p, p.init, q);
      assert forall e :: e in OfPod(p) <==> e in OfContainers(p, p.main) || e in OfContainers(p, p.init);
    }
  }

  lemma {:induction false} PodsReserve(pods: seq<Pod>, q: Port)
    ensures (exists e :: e in Collected(pods) && q == Defaulted(e)) <==> exists p :: p in pods && PodReserves(p, q)
  {
    if pods != [] {
      var n := |pods| - 1;
      PodsReserve(pods[..n], q);
      PodPortsReserve(pods[n], q);
      CollectedSnoc(pods[..n], pods[n]);
      assert pods == pods[..n] + [pods[n]];
      assert pods[n] in pods;
      assert forall e :: e in Collected(pods) <==> e in Collected(pods[..n]) || e in OfPod(pods[n]);
    }
  }

  lemma {:induction false} NumberOfPortsSnoc(ports: seq<Port>, port: Port)
    ensures NumberOfPorts(ports + [port]) == NumberOfPorts(ports) + if port.hostPort != 0 then 1 else 0
  {
    if ports != [] {
      assert (ports + [port])[1..] == ports[1..] + [port];
      NumberOfPortsSnoc(ports[1..], port);
    }
  }

  lemma {:induction false} NumberInContainersSnoc(cs: seq<Container>, c: Container)
    ensures NumberInContainers(cs + [c]) == NumberInContainers(cs) + NumberOfPorts(c.ports)
  {
    if cs != [] {
      assert (cs + [c])[1..] == cs[1..] + [c];
      NumberInContainersSnoc(cs[1..], c);
    }
  }

  lemma {:induction false} OfPortsSize(p: Pod, c: Container, ports: seq<Port>)
    ensures |OfPorts(p, c, ports)| == NumberOfPorts(ports)
  {
    if ports != [] {
      var n := |ports| - 1;
      OfPortsSize(p, c, ports[..n]);
      NumberOfPortsSnoc(ports[..n], ports[n]);
      assert ports == ports[..n] + [ports[n]];
    }
  }

  lemma {:induction false} OfContainersSize(p: Pod, cs: seq<Container>)
    ensures |OfContainers(p, cs)| == NumberInContainers(cs)
  {
    if cs != [] {
      var n := |cs| - 1;
      OfContainersSize(p, cs[..n]);
      OfPortsSize(p, cs[n], cs[n].ports);
      NumberInContainersSnoc(cs[..n], cs[n]);
      assert cs == cs[..n] + [cs[n]];
    }
  }

  lemma {:induction false} NumberOfHostPortsSnoc(pods: seq<Pod>, p: Pod)
    ensures NumberOfHostPorts(pods + [p]) == NumberOfHostPorts(pods) + |OfPod(p)|
  {
    if pods == [] {
      CountsIff(p);
      OfContainersSize(p, p.main);
      OfContainersSize(p, p.init);
      assert ([] + [p])[1..] == [];
    } else {
      assert (pods + [p])[1..] == pods[1..] + [p];
      NumberOfHostPortsSnoc(pods[1..], p);
    }
  }

  lemma {:induction false} CollectedSize(pods: seq<Pod>)
    ensures |Collected(pods)| == NumberOfHostPorts(pods)
  {
    if pods != [] {
      var n := |pods| - 1;
      CollectedSize(pods[..n]);
      CollectedSnoc(pods[..n], pods[n]);
      NumberOfHostPortsSnoc(pods[..n], pods[n]);
      assert pods == pods[..n] + [pods[n]];
    }
  }

  /** A collection holds exactly the host ports that the pods ask for, each as often as it is asked for. */
  lemma CollectionReserves(ports: seq<Port>, pods: seq<Pod>)
    requires IsCollection(ports, pods)
    ensures forall q :: q in ports <==> exists p :: p in pods && PodReserves(p, q)
    ensures |ports| == NumberOfHostPorts(pods)
  {
    var all := Map(Defaulted, Collected(pods));
    CollectedSize(pods);
    assert |ports| == |multiset(ports)| == |multiset(all)| == |all|;
    forall q ensures q in ports <==> exists p :: p in pods && PodReserves(p, q) {
      PodsReserve(pods, q);
      assert q in ports <==> q in multiset(ports);
      assert q in all <==> q in multiset(all);
      MapContains(Collected(pods), q);
    }
  }

  lemma MapContains(entries: seq<Port>, q: Port)
    ensures q in Map(Defaulted, entries) <==> exists e :: e in entries && q == Defaulted(e)
  {
    var all := Map(Defaulted, entries);
    if q in all {
      var i :| 0 <= i < |all| && all[i] == q;
      assert entries[i] in entries;
    }
    if e :| e in entries && q == Defaulted(e) {
      var i :| 0 <= i < |entries| && entries[i] == e;
      assert all[i] == q;
    }
  }

  method FillDefaults(ports: seq<Port>) returns (r: seq<Port>)
    ensures r == Map(Defaulted, ports)
  {
    r := ports;
    for i := 0 to |r|
      invariant |r| == |ports|
      invariant forall j :: 0 <= j < |r| ==> r[j] == if j < i then Defaulted(ports[j]) else ports[j]
    {
      if r[i].hostIP == "" {
        r := r[i := r[i].(hostIP := ANY_IP)];
      }
      if r[i].protocol == "" {
        r := r[i := r[i].(protocol := TCP)];
      }
    }
  }

  method Sort(ports: seq<Port>) returns (r: seq<Port>)
    ensures Sorted(r) && multiset(r) == multiset(ports)
  {
    r := [];
    for i := 0 to |ports|
      invariant Sorted(r) && multiset(r) == multiset(ports[..i])
    {
      r := Insert(r, ports[i]);
      assert ports[..i + 1] == ports[..i] + [ports[i]];
    }
    assert ports[..|ports|] == ports;
  }

  method Insert(ports: seq<Port>, p: Port) returns (r: seq<Port>)
    requires Sorted(ports)
    ensures Sorted(r) && multiset(r) == multiset(ports) + multiset{p}
  {
    var i := |ports|;
    while i > 0 && Before(p, ports[i - 1])
      invariant 0 <= i <= |ports|
      invariant forall j :: i <= j < |ports| ==> Before(p, ports[j])
    {
      i := i - 1;
    }
    r := ports[..i] + [p] + ports[i..];
    assert ports == ports[..i] + ports[i..];
    InsertSorted(ports, i, p);
  }

  lemma InsertSorted(ports: seq<Port>, i: nat, p: Port)
    requires Sorted(ports) && i <= |ports|
    requires i > 0 ==> !Before(p, ports[i - 1])
    requires forall j :: i <= j < |ports| ==> Before(p, ports[j])
    ensures Sorted(ports[..i] + [p] + ports[i..])
  {
    var r := ports[..i] + [p] + ports[i..];
    forall a, b | 0 <= a < b < |r| ensures !Before(r[b], r[a]) {
      if b == i {
        if a < i - 1 {
          NotBeforeTransitive(ports[a], ports[i - 1], p);
        }
      } else if a == i {
        BeforeTotal(p, r[b]);
      }
    }
  }

  // ---------- The canonical form ----------

  /** A port without its name; the rest is fixed by the sort key. */
  function Nameless(p: Port): Port {
    p.(name := "")
  }

  ghost predicate KeyDetermined(ports: seq<Port>) {
    forall p :: p in ports ==> p.containerPort == p.hostPort
  }

  /** Ports that differ in nothing but their sort key. */
  ghost predicate Plain(ports: seq<Port>) {
    forall p :: p in ports ==> p.containerPort == p.hostPort && p.name == ""
  }

  lemma SortedHeads(a: seq<Port>, b: seq<Port>)
    requires a != [] && b != [] && Sorted(a) && Sorted(b) && multiset(a) == multiset(b) && Plain(a) && Plain(b)
    ensures a[0] == b[0]
  {
    var j := FindHead(a, b);
    var i := FindHead(b, a);
    BeforeTotal(a[0], b[0]);
    BeforeTotal(a[0], a[0]);
    assert !Before(b[j], b[0]) && !Before(a[i], a[0]);
    assert a[0] in a && b[0] in b;
  }

  /** There is only one way to sort such ports. */
  lemma {:induction false} SortedUnique(a: seq<Port>, b: seq<Port>)
    requires Sorted(a) && Sorted(b) && multiset(a) == multiset(b) && Plain(a) && Plain(b)
    ensures a == b
  {
    if a == [] {
      EmptyPermutation(a, b);
    } else if b == [] {
      EmptyPermutation(b, a);
    } else {
      SortedHeads(a, b);
      DropHeads(a, b);
      SortedUnique(a[1..], b[1..]);
    }
  }

  lemma NamelessIsPlain(ports: seq<Port>)
    requires KeyDetermined(ports)
    ensures Plain(Map(Nameless, ports))
  {
    var x := Map(Nameless, ports);
    forall p | p in x ensures p.containerPort == p.hostPort && p.name == "" {
      var i :| 0 <= i < |x| && x[i] == p;
      assert ports[i] in ports;
    }
  }

  lemma CanonicalForm(a: seq<Port>, b: seq<Port>)
    requires Sorted(a) && Sorted(b) && multiset(a) == multiset(b) && KeyDetermined(a) && KeyDetermined(b)
    ensures Renamed(a) == Renamed(b)
  {
    MapPermutation(Nameless, a, b);
    var x, y := Map(Nameless, a), Map(Nameless, b);
    NamelessIsPlain(a);
    NamelessIsPlain(b);
    SortedUnique(x, y);
    forall i | 0 <= i < |a| ensures Renamed(a)[i] == Renamed(b)[i] {
      assert x[i] == y[i];
    }
  }

  // ---------- Independence of the pod list's order ----------

  lemma {:induction false} OfPortsDetermined(p: Pod, c: Container, ports: seq<Port>)
    ensures KeyDetermined(OfPorts(p, c, ports))
  {
    if ports != [] {
      OfPortsDetermined(p, c, ports[..|ports| - 1]);
    }
  }

  lemma {:induction false} OfContainersDetermined(p: Pod, cs: seq<Container>)
    ensures KeyDetermined(OfContainers(p, cs))
  {
    if cs != [] {
      OfContainersDetermined(p, cs[..|cs| - 1]);
      OfPortsDetermined(p, cs[|cs| - 1], cs[|cs| - 1].ports);
    }
  }

  lemma {:induction false} CollectedDetermined(pods: seq<Pod>)
    ensures KeyDetermined(Collected(pods))
  {
    if pods != [] {
      var n := |pods| - 1;
      CollectedDetermined(pods[..n]);
      CollectedSnoc(pods[..n], pods[n]);
      assert pods == pods[..n] + [pods[n]];
      OfContainersDetermined(pods[n], pods[n].main);
      OfContainersDetermined(pods[n], pods[n].init);
    }
  }

  lemma CollectionDetermined(ports: seq<Port>, pods: seq<Pod>)
    requires IsCollection(ports, pods)
    ensures KeyDetermined(ports)
  {
    CollectedDetermined(pods);
    var all := Map(Defaulted, Collected(pods));
    forall p | p in ports ensures p.containerPort == p.hostPort {
      assert p in multiset(ports);
      assert p in multiset(all);
      var i :| 0 <= i < |all| && all[i] == p;
      assert Collected(pods)[i] in Collected(pods);
    }
  }

  /** The renamed list is the same for every order of the pods and every outcome of the unstable sort. */
  lemma PortListIgnoresPodOrder(a: seq<Pod>, b: seq<Pod>, x: seq<Port>, y: seq<Port>)
    requires multiset(a) == multiset(b) && IsCollection(x, a) && IsCollection(y, b)
    ensures Renamed(x) == Renamed(y)
  {
    MapPermutation(OfPod, a, b);
    FlatPermutation(Map(OfPod, a), Map(OfPod, b));
    MapPermutation(Defaulted, Collected(a), Collected(b));
    CollectionDetermined(x, a);
    CollectionDetermined(y, b);
    CanonicalForm(x, y);
  }

  // ---------- The fake pod ----------

  /**
   A fake pod of the virtual node: the ports of its containers, whether it counts as scheduled, and whether it is
   being deleted. A pod that is being deleted is still listed until it is gone.
   */
  datatype FakePod = FakePod(containers: seq<seq<Port>>, scheduled: bool, terminating: bool)

  type FakePods = map<string, FakePod>

  predicate Matches(f: FakePod, ports: seq<Port>) {
    |f.containers| > 0 && f.containers[0] == ports
  }

  /** The API server's list of the fake pods, in some order. */
  ghost predicate Lists(order: seq<string>, fakes: FakePods) {
    && (forall n :: n in order <==> n in fakes)
    && (forall i, j :: 0 <= i < j < |order| ==> order[i] != order[j])
  }

  function FirstMatch(fakes: FakePods, order: seq<string>, ports: seq<Port>): (r: Option<string>)
    requires forall n :: n in order ==> n in fakes
    ensures r.Some? <==> exists n :: n in order && Matches(fakes[n], ports)
    ensures r.Some? ==> r.value in order && Matches(fakes[r.value], ports)
  {
    if order == [] then None
    else
      var n := |order| - 1;
      var before := FirstMatch(fakes, order[..n], ports);
      assert order == order[..n] + [order[n]];
      if before.Some? then before
      else if Matches(fakes[order[n]], ports) then Some(order[n])
      else None
  }

  lemma FirstMatchSnoc(fakes: FakePods, order: seq<string>, n: string, ports: seq<Port>)
    requires (forall m :: m in order ==> m in fakes) && n in fakes
    ensures FirstMatch(fakes, order + [n], ports) ==
            var before := FirstMatch(fakes, order, ports);
            if before.Some? then before else if Matches(fakes[n], ports) then Some(n) else None
  {
    assert (order + [n])[..|order|] == order;
  }

  /** The pod that a run keeps: the first that matches, or a new one. */
  function Kept(fakes: FakePods, order: seq<string>, ports: seq<Port>, newName: string): string
    requires forall n :: n in order ==> n in fakes
  {
    var first := FirstMatch(fakes, order, Renamed(ports));
    if first.Some? then first.value else newName
  }

  function KeptPod(fakes: FakePods, order: seq<string>, ports: seq<Port>): FakePod
    requires forall n :: n in order ==> n in fakes
  {
    var first := FirstMatch(fakes, order, Renamed(ports));
    if first.Some? then fakes[first.value].(scheduled := true) else FakePod([Renamed(ports)], true, false)
  }

  /** The pods that remain of those that a run deletes: some linger for a while. */
  function Lingering(fakes: FakePods, lingering: set<string>): FakePods {
    map n | n in fakes && n in lingering :: fakes[n].(terminating := true)
  }

  /** The fake pods after a run without failures. */
  function Handled(fakes: FakePods, order: seq<string>, ports: seq<Port>, newName: string,
                   lingering: set<string>): FakePods
    requires forall n :: n in order ==> n in fakes
  {
    if ports == [] then Lingering(fakes, lingering)
    else Lingering(fakes, lingering)[Kept(fakes, order, ports, newName) := KeptPod(fakes, order, ports)]
  }

  datatype Calls = Calls(namespace: bool, list: bool, create: bool, patch: bool, failingDeletes: set<string>)

  class FakePodHandler {
    var fakes: FakePods

    /**
     `order` is what the API server lists, `newName` the name that it would generate, and `lingering` tells which
     deleted pods stay for a while. A failure leaves at most too many fake pods: one that matches is never deleted
     when no other one would remain.
     */
    method HandleFakePod(hostPorts: seq<Port>, order: seq<string>, newName: string, lingering: set<string>,
                         calls: Calls)
      returns (ok: bool)
      requires Lists(order, fakes) && newName !in fakes
      modifies this
      ensures calls.namespace && calls.list && calls.create && calls.patch && calls.failingDeletes == {} ==> ok
      ensures ok ==> fakes == Handled(old(fakes), order, hostPorts, newName, lingering)
      ensures hostPorts != [] && (exists n :: n in old(fakes) && Matches(old(fakes)[n], Renamed(hostPorts))) ==>
                exists n :: n in fakes && Matches(fakes[n], Renamed(hostPorts))
      ensures ok && hostPorts != [] ==>
                exists n :: n in fakes && fakes[n].scheduled && |fakes[n].containers| > 0 &&
                  fakes[n].containers[0] == Renamed(hostPorts)
    {
      if !calls.namespace || !calls.list {
        return false;
      }
      if |hostPorts| == 0 {
        ok := DeleteAll(order, calls.failingDeletes, lingering);
        assert ok ==> fakes == Lingering(old(fakes), lingering);
        return;
      }
      var ports := Rename(hostPorts);
      var first, extra := Classify(order, ports);
      var keep: string;
      ok, keep := EnsureFakePod(first, newName, ports, calls);
      if !ok {
        return;
      }
      ghost var ensured := fakes;
      ok := DeleteAll(extra, calls.failingDeletes, lingering);
      assert keep in fakes && fakes[keep] == ensured[keep] && Matches(fakes[keep], ports);
      if ok {
        ExtrasGone(old(fakes), ensured, fakes, extra, keep, lingering);
      }
    }

    /** Creates the pod if none was found, and makes it count as scheduled. */
    method EnsureFakePod(first: Option<string>, newName: string, ports: seq<Port>, calls: Calls)
      returns (ok: bool, keep: string)
      requires newName !in fakes && (first.Some? ==> first.value in fakes)
      modifies this
      ensures calls.create && calls.patch ==> ok
      ensures keep == if first.Some? then first.value else newName
      ensures ok && first.Some? ==> fakes == old(fakes)[keep := old(fakes)[keep].(scheduled := true)]
      ensures ok && first.None? ==> fakes == old(fakes)[keep := FakePod([ports], true, false)]
      ensures !ok ==> forall n :: n in old(fakes) ==> n in fakes && fakes[n] == old(fakes)[n]
    {
      keep := if first.Some? then first.value else newName;
      if first.None? {
        if !calls.create {
          return false, keep;
        }
        fakes := fakes[newName := FakePod([ports], false, false)];
      }
      ok := PatchScheduled(keep, calls.patch);
    }

    method PatchScheduled(name: string, patchOk: bool) returns (ok: bool)
      requires name in fakes
      modifies this
      ensures ok <==> old(fakes)[name].scheduled || patchOk
      ensures fakes == if ok then old(fakes)[name := old(fakes)[name].(scheduled := true)] else old(fakes)
    {
      if fakes[name].scheduled {
        return true;
      }
      if patchOk {
        fakes := fakes[name := fakes[name].(scheduled := true)];
      }
      return patchOk;
    }

    method Rename(hostPorts: seq<Port>) returns (r: seq<Port>)
      ensures r == Renamed(hostPorts)
      ensures |r| == |hostPorts| && forall i :: 0 <= i < |r| ==> r[i] == hostPorts[i].(name := r[i].name)
      ensures forall i, j :: 0 <= i < j < |r| ==> r[i].name != r[j].name
    {
      NamesApart(hostPorts);
      r := hostPorts;
      for i := 0 to |r|
        invariant |r| == |hostPorts|
        invariant forall j :: 0 <= j < |r| ==> r[j] == if j < i then Renamed(hostPorts)[j] else hostPorts[j]
      {
        r := r[i := r[i].(name := "port-" + Ports.Itoa(i))];
      }
    }

    /** The first pod with these ports, and all the others. */
    method Classify(order: seq<string>, ports: seq<Port>) returns (first: Option<string>, extra: seq<string>)
      requires Lists(order, fakes)
      ensures first == FirstMatch(fakes, order, ports)
      ensures forall n :: n in extra <==> n in fakes && first != Some(n)
    {
      first, extra := None, [];
      for i := 0 to |order|
        invariant first == FirstMatch(fakes, order[..i], ports)
        invariant forall n :: n in extra <==> n in order[..i] && first != Some(n)
      {
        FirstMatchSnoc(fakes, order[..i], order[i], ports);
        assert order[..i + 1] == order[..i] + [order[i]];
        assert order[i] !in order[..i];
        if Matches(fakes[order[i]], ports) && first.None? {
          first := Some(order[i]);
        } else {
          extra := extra + [order[i]];
        }
      }
      assert order[..|order|] == order;
    }

    method DeleteAll(names: seq<string>, failing: set<string>, lingering: set<string>) returns (ok: bool)
      modifies this
      ensures failing == {} ==> ok
      ensures ok ==> forall n :: n in fakes <==> n in old(fakes) && (n !in names || n in lingering)
      ensures ok ==> forall n :: n in fakes && n in names ==> fakes[n] == old(fakes)[n].(terminating := true)
      ensures forall n :: n in old(fakes) && n !in names ==> n in fakes && fakes[n] == old(fakes)[n]
      ensures forall n :: n in fakes ==> n in old(fakes)
    {
      for i := 0 to |names|
        invariant forall n :: n in fakes <==> n in old(fakes) && (n !in names[..i] || n in lingering)
        invariant forall n :: n in fakes ==>
                    fakes[n] == if n in names[..i] then old(fakes)[n].(terminating := true) else old(fakes)[n]
      {
        var n := names[i];
        if n in fakes && n in failing {
          return false;
        }
        if n in fakes && n in lingering {
          fakes := fakes[n := fakes[n].(terminating := true)];
        } else {
          fakes := fakes - {n};
        }
        assert names[..i + 1] == names[..i] + [n];
      }
      assert names[..|names|] == names;
      return true;
    }
  }

  lemma ExtrasGone(before: FakePods, ensured: FakePods, after: FakePods, extra: seq<string>, keep: string,
                   lingering: set<string>)
    requires (forall n :: n in extra <==> n in before && n != keep) && keep in ensured
    requires ensured == before[keep := ensured[keep]]
    requires forall n :: n in after <==> n in ensured && (n !in extra || n in lingering)
    requires forall n :: n in after && n in extra ==> after[n] == ensured[n].(terminating := true)
    requires keep in after && after[keep] == ensured[keep]
    ensures after == Lingering(before, lingering)[keep := ensured[keep]]
  {
  }

  // ---------- How many fake pods are left ----------

  /** The pods that are not being deleted. */
  function Live(fakes: FakePods): FakePods {
    map n | n in fakes && !fakes[n].terminating :: fakes[n]
  }

  /** The pod that the handler takes for the right one is being deleted. */
  predicate TakesDyingPod(fakes: FakePods, order: seq<string>, ports: seq<Port>)
    requires forall n :: n in order ==> n in fakes
  {
    var first := FirstMatch(fakes, order, Renamed(ports));
    first.Some? && fakes[first.value].terminating
  }

  /** Without ports no live pod remains; with ports exactly one, with the ports, unless a dying one was taken for it. */
  lemma OneFakePodRemains(fakes: FakePods, order: seq<string>, ports: seq<Port>, newName: string,
                          lingering: set<string>)
    requires Lists(order, fakes) && newName !in fakes
    ensures var live := Live(Handled(fakes, order, ports, newName, lingering));
            && (ports == [] ==> live == map[])
            && (ports != [] ==>
                  if TakesDyingPod(fakes, order, ports) then live == map[]
                  else && live == map[Kept(fakes, order, ports, newName) := KeptPod(fakes, order, ports)]
                       && KeptPod(fakes, order, ports).containers != []
                       && KeptPod(fakes, order, ports).containers[0] == Renamed(ports)
                       && KeptPod(fakes, order, ports).scheduled)
  {
  }

  /** A second run with the same ports leaves the live pods as they are exactly if it does not take a dying one. */
  lemma SecondRunKeepsLiveIff(fakes: FakePods, x: seq<Port>, y: seq<Port>, order: seq<string>, order': seq<string>,
                              newName: string, newName': string, lingering: set<string>, lingering': set<string>)
    requires Renamed(x) == Renamed(y) && x != []
    requires Lists(order, fakes) && newName !in fakes && !TakesDyingPod(fakes, order, x)
    requires var once := Handled(fakes, order, x, newName, lingering); Lists(order', once) && newName' !in once
    ensures var once := Handled(fakes, order, x, newName, lingering);
            Live(Handled(once, order', y, newName', lingering')) == Live(once) <==> !TakesDyingPod(once, order', y)
  {
    assert |Renamed(x)| == |x| && |Renamed(y)| == |y|;
    var once := Handled(fakes, order, x, newName, lingering);
    var n := Kept(fakes, order, x, newName);
    OneFakePodRemains(fakes, order, x, newName, lingering);
    OneFakePodRemains(once, order', y, newName', lingering');
    assert n in Live(once);
    if !TakesDyingPod(once, order', y) {
      assert n in order' && Matches(once[n], Renamed(y));
      var m := FirstMatch(once, order', Renamed(y)).value;
      assert m in Live(once);
    }
  }

  /**
   If deleted pods are gone at once and none was dying, a second run is a no-op, however the pods are listed and
   sorted.
   */
  lemma SecondRunIsNoOp(a: seq<Pod>, b: seq<Pod>, x: seq<Port>, y: seq<Port>, fakes: FakePods,
                        order: seq<string>, order': seq<string>, newName: string, newName': string)
    requires multiset(a) == multiset(b) && IsCollection(x, a) && IsCollection(y, b)
    requires Lists(order, fakes) && newName !in fakes && Live(fakes) == fakes
    requires Lists(order', Handled(fakes, order, x, newName, {})) && newName' !in Handled(fakes, order, x, newName, {})
    ensures Handled(Handled(fakes, order, x, newName, {}), order', y, newName', {}) ==
            Handled(fakes, order, x, newName, {})
  {
    PortListIgnoresPodOrder(a, b, x, y);
    RunAgain(fakes, x, y, order, order', newName, newName');
  }

  lemma RunAgain(fakes: FakePods, x: seq<Port>, y: seq<Port>, order: seq<string>, order': seq<string>,
                 newName: string, newName': string)
    requires Renamed(x) == Renamed(y) && Lists(order, fakes) && newName !in fakes && Live(fakes) == fakes
    requires Lists(order', Handled(fakes, order, x, newName, {})) && newName' !in Handled(fakes, order, x, newName, {})
    ensures Handled(Handled(fakes, order, x, newName, {}), order', y, newName', {}) ==
            Handled(fakes, order, x, newName, {})
  {
    assert |Renamed(x)| == |x| && |Renamed(y)| == |y|;
    var once := Handled(fakes, order, x, newName, {});
    if x != [] {
      var n := Kept(fakes, order, x, newName);
      assert once == map[n := KeptPod(fakes, order, x)];
      assert n in order' && Matches(once[n], Renamed(y));
      assert FirstMatch(once, order', Renamed(y)) == Some(n);
    }
  }

  /** Of two pods the handler keeps the one that is listed first. */
  lemma FirstOfTwo(fakes: FakePods, m: string, n: string, x: seq<Port>)
    requires m in fakes && n in fakes && Matches(fakes[m], Renamed(x))
    ensures forall k :: k in [m] + [n] ==> k in fakes
    ensures FirstMatch(fakes, [m] + [n], Renamed(x)) == Some(m)
  {
    assert [] + [m] == [m];
    FirstMatchSnoc(fakes, [], m, Renamed(x));
    FirstMatchSnoc(fakes, [m], n, Renamed(x));
  }

  /**
   Deleted pods that linger can undo the result: of two pods with the right ports the second is deleted, and if the
   next run lists it first, it is kept and the live one deleted.
   */
  lemma DyingPodWins(x: seq<Port>)
    requires x != []
    ensures var pod := FakePod([Renamed(x)], true, false);
            var once := Handled(map["a" := pod, "b" := pod], ["a"] + ["b"], x, "c", {"b"});
            && Live(once) == map["a" := pod]
            && (forall n :: n in ["b"] + ["a"] ==> n in once)
            && Live(Handled(once, ["b"] + ["a"], x, "d", {})) == map[]
  {
    var pod := FakePod([Renamed(x)], true, false);
    var two := map["a" := pod, "b" := pod];
    FirstOfTwo(two, "a", "b", x);
    var once := Handled(two, ["a"] + ["b"], x, "c", {"b"});
    assert once == map["a" := pod, "b" := pod.(terminating := true)];
    FirstOfTwo(once, "b", "a", x);
  }
}
