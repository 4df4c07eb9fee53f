/**
 The proxier port of every virtual node: an allocator over two maps that probes from a hash of
 the node's name. The model proves that it hands out the first free port in cyclic order.
 */
module Ports {
  import opened Wrappers

  const PORT_MIN := 15000
  const PORT_MAX := 65535
  const RANGE := PORT_MAX - PORT_MIN + 1

  // ---------- Ports in a label ----------

  function DigitChar(d: int): char
    requires 0 <= d <= 9
  {
    '0' + d as char
  }

  function Itoa(n: nat): (s: string)
    ensures s != [] && forall i :: 0 <= i < |s| ==> '0' <= s[i] <= '9'
  {
    if n < 10 then [DigitChar(n)] else Itoa(n / 10) + [DigitChar(n % 10)]
  }

  /** The value of a string of digits, None if some other character occurs. */
  function Digits(s: string): (r: Option<int>)
    ensures r.Some? ==> r.value >= 0
  {
    if s == [] then Some(0)
    else
      var head := Digits(s[..|s| - 1]);
      var c := s[|s| - 1];
      if head.None? || !('0' <= c <= '9') then None else Some(head.value * 10 + (c as int - '0' as int))
  }

  /** strconv.Atoi: an optional sign, at least one digit, and a value that fits an int64. */
  function Atoi(s: string): Option<int> {
    var signed := s != [] && (s[0] == '+' || s[0] == '-');
    var body := if signed then s[1..] else s;
    if body == [] || Digits(body).None? then None
    else
      var v: int := if signed && s[0] == '-' then -Digits(body).value else Digits(body).value;
      if -0x8000_0000_0000_0000 <= v < 0x8000_0000_0000_0000 then Some(v) else None
  }

  lemma {:induction false} DigitsOfItoa(n: nat)
    ensures Digits(Itoa(n)) == Some(n)
  {
    var s := Itoa(n);
    if n < 10 {
      assert s == [DigitChar(n)] && s[..0] == [];
    } else {
      DigitsOfItoa(n / 10);
      assert s[..|s| - 1] == Itoa(n / 10) && s[|s| - 1] == DigitChar(n % 10);
    }
  }

  /** A port written to a label is read back unchanged. */
  lemma AtoiOfItoa(n: nat)
    requires n < 0x8000_0000_0000_0000
    ensures Atoi(Itoa(n)) == Some(n)
  {
    DigitsOfItoa(n);
  }

  /** With a sign in front the number is read with that sign; a sign alone, or another character, is an error. */
  lemma AtoiOfSigned(n: nat, s: string, i: nat)
    requires n < 0x8000_0000_0000_0000
    ensures Atoi("-" + Itoa(n)) == Some(0 - n as int) && Atoi("+" + Itoa(n)) == Some(n)
    ensures Atoi("") == Atoi("+") == Atoi("-") == None
    ensures 0 < i < |s| && !('0' <= s[i] <= '9') ==> Atoi(s) == None
  {
    DigitsOfItoa(n);
    assert ("-" + Itoa(n))[1..] == Itoa(n) && ("+" + Itoa(n))[1..] == Itoa(n);
    if 0 < i < |s| && !('0' <= s[i] <= '9') {
      NotDigits(s, i);
      NotDigits(s[1..], i - 1);
    }
  }

  lemma {:induction false} NotDigits(s: string, i: nat)
    requires i < |s| && !('0' <= s[i] <= '9')
    ensures Digits(s) == None
  {
    if i < |s| - 1 {
      NotDigits(s[..|s| - 1], i);
    }
  }

  /** Labels are decimal. */
  lemma ItoaIsDecimal()
    ensures Itoa(15000) == "15000" && Itoa(65535) == "65535"
  {
    assert Itoa(1) == "1" && Itoa(15) == "15" && Itoa(150) == "150" && Itoa(1500) == "1500";
    assert Itoa(6) == "6" && Itoa(65) == "65" && Itoa(655) == "655" && Itoa(6553) == "6553";
  }

  // ---------- The hash ----------

  function Fnv1a(s: string, hash: bv32): bv32 {
    if s == [] then hash
    else Fnv1a(s[1..], FnvStep(hash, s[0]))
  }

  function FnvStep(hash: bv32, c: char): bv32 {
    (hash ^ (c as bv32)) * 0x01000193
  }

  method HashString(s: string) returns (hash: bv32)
    ensures hash == Fnv1a(s, 0x811c9dc5)
  {
    hash := 0x811c9dc5;
    for i := 0 to |s|
      invariant Fnv1a(s[i..], hash) == Fnv1a(s, 0x811c9dc5)
    {
      assert s[i..][0] == s[i] && s[i..][1..] == s[i + 1..];
      hash := FnvStep(hash, s[i]);
    }
  }

  /** The published values of 32-bit FNV-1a for "", "a" and "b". */
  lemma HashValues()
    ensures Fnv1a("", 0x811c9dc5) == 0x811c9dc5
    ensures Fnv1a("a", 0x811c9dc5) == 0xe40c292c && Fnv1a("b", 0x811c9dc5) == 0xe70c2de5
  {
    assert "a"[1..] == "" && "b"[1..] == "";
    assert FnvStep(0x811c9dc5, 'a') == 0xe40c292c && FnvStep(0x811c9dc5, 'b') == 0xe70c2de5;
  }

  /** Where probing for a node starts. */
  function BasePort(name: string): (p: int)
    ensures PORT_MIN <= p <= PORT_MAX
  {
    PORT_MIN + (Fnv1a(name, 0x811c9dc5) as int) % RANGE
  }

  // ---------- Cyclic order ----------

  /** The k-th port in cyclic order from `base`. */
  function Probe(base: int, k: int): (p: int)
    ensures PORT_MIN <= p <= PORT_MAX
  {
    PORT_MIN + (base - PORT_MIN + k) % RANGE
  }

  lemma ProbeByOffset(base: int, k: int)
    requires PORT_MIN <= base <= PORT_MAX && 0 <= k < RANGE
    ensures Probe(base, k) == if base + k <= PORT_MAX then base + k else PORT_MIN + (base + k - PORT_MAX - 1)
  {
  }

  /** How far a port lies behind `base` in cyclic order. */
  function ProbeIndex(base: int, p: int): (k: int)
    ensures 0 <= k < RANGE
  {
    (p - base) % RANGE
  }

  /** RANGE probes visit every port of the range exactly once. */
  lemma ProbeBijection(base: int, k: int, p: int)
    requires PORT_MIN <= base <= PORT_MAX
    ensures 0 <= k < RANGE ==> ProbeIndex(base, Probe(base, k)) == k
    ensures PORT_MIN <= p <= PORT_MAX ==> Probe(base, ProbeIndex(base, p)) == p
  {
    if 0 <= k < RANGE {
      ProbeByOffset(base, k);
    }
    if PORT_MIN <= p <= PORT_MAX {
      assert ProbeIndex(base, p) == if base <= p then p - base else p - base + RANGE;
    }
  }

  // ---------- Specification ----------

  /** The allocator's state: which node has a port, and which port a node has. */
  datatype Table = Table(byPort: map<int, string>, byName: map<string, int>)

  const EMPTY := Table(map[], map[])

  /** The two maps are inverse to each other. */
  ghost predicate Inverse(t: Table) {
    && (forall p :: p in t.byPort ==> t.byPort[p] in t.byName && t.byName[t.byPort[p]] == p)
    && (forall n :: n in t.byName ==> t.byName[n] in t.byPort && t.byPort[t.byName[n]] == n)
  }

  predicate Full(t: Table) {
    forall p :: PORT_MIN <= p <= PORT_MAX ==> p in t.byPort
  }

  /** k is the first probe from `base` that finds a free port. */
  predicate FirstFree(t: Table, base: int, k: int) {
    && 0 <= k < RANGE && Probe(base, k) !in t.byPort
    && forall j :: 0 <= j < k ==> Probe(base, j) in t.byPort
  }

  function Claim(t: Table, name: string, port: int): Table {
    Table(t.byPort[port := name], t.byName[name := port])
  }

  /** Allocation: a node keeps the port it has; otherwise it gets the first free one from its base. */
  ghost predicate Allocates(t: Table, name: string, t': Table, r: Result<int>) {
    if name in t.byName then r == Success(t.byName[name]) && t' == t
    else if Full(t) then r.Failure? && t' == t
    else
      var base := BasePort(name);
      exists k :: FirstFree(t, base, k) && r == Success(Probe(base, k)) && t' == Claim(t, name, Probe(base, k))
  }

  function Released(t: Table, name: string): Table {
    if name in t.byName then Table(t.byPort - {t.byName[name]}, t.byName - {name}) else t
  }

  /** The port is the first free one when counting up from the hash of the name, around the range of 50536 ports. */
  ghost predicate IsFirstFree(taken: map<int, string>, name: string, port: int) {
    var start := (Fnv1a(name, 0x811c9dc5) as int) % 50536;
    && port !in taken
    && exists k :: 0 <= k < 50536 && port == Around(start, k) && forall j :: 0 <= j < k ==> Around(start, j) in taken
  }

  function Around(start: int, k: int): int {
    15000 + (start + k) % 50536
  }

  lemma AllocatedIsFirstFree(t: Table, name: string, t': Table, r: Result<int>)
    requires Allocates(t, name, t', r) && name !in t.byName && r.Success?
    ensures IsFirstFree(t.byPort, name, r.value)
    ensures t' == Table(t.byPort[r.value := name], t.byName[name := r.value])
  {
    var base := BasePort(name);
    var k :| FirstFree(t, base, k) && r == Success(Probe(base, k)) && t' == Claim(t, name, Probe(base, k));
    var start := (Fnv1a(name, 0x811c9dc5) as int) % 50536;
    forall j ensures Probe(base, j) == Around(start, j) {
    }
    forall j | 0 <= j < k ensures Around(start, j) in t.byPort {
      assert Probe(base, j) in t.byPort;
    }
  }

  // ---------- The allocator object ----------

  datatype VNode = VNode(name: string, portLabel: Option<string>)

  class PortAllocator {
    var allocatedPorts: map<int, string>
    var nodeNameToPort: map<string, int>

    constructor ()
      ensures State() == EMPTY
    {
      allocatedPorts, nodeNameToPort := map[], map[];
    }

    ghost function State(): Table
      reads this
    {
      Table(allocatedPorts, nodeNameToPort)
    }

    /** Rebuilds both maps from the port labels of the virtual nodes, as on a restart. */
    method InitAllocatedPortsCache(vnodes: seq<VNode>)
      modifies this
      ensures State() == Loaded(vnodes)
    {
      allocatedPorts, nodeNameToPort := map[], map[];
      for i := 0 to |vnodes|
        invariant State() == Loaded(vnodes[..i])
      {
        assert vnodes[..i + 1] == vnodes[..i] + [vnodes[i]];
        if vnodes[i].portLabel.Some? {
          var port := Atoi(vnodes[i].portLabel.value);
          if port.Some? {
            allocatedPorts := allocatedPorts[port.value := vnodes[i].name];
            nodeNameToPort := nodeNameToPort[vnodes[i].name := port.value];
          }
        }
      }
      assert vnodes[..|vnodes|] == vnodes;
    }

    method AllocateProxierPort(name: string) returns (r: Result<int>)
      modifies this
      ensures Allocates(old(State()), name, State(), r)
      ensures r.Failure? ==>
                name !in old(nodeNameToPort) && forall p :: 15000 <= p <= 65535 ==> p in old(allocatedPorts)
      ensures name !in old(nodeNameToPort) && r.Success? ==> IsFirstFree(old(allocatedPorts), name, r.value)
      ensures name !in old(nodeNameToPort) && r.Success? ==>
                && allocatedPorts == old(allocatedPorts)[r.value := name]
                && nodeNameToPort == old(nodeNameToPort)[name := r.value]
    {
      if name in nodeNameToPort {
        return Success(nodeNameToPort[name]);
      }
      var hash := HashString(name);
      var basePort := PORT_MIN + (hash as int) % RANGE;
      ghost var table := State();
      ProbeByOffset(basePort, 0);
      if basePort !in allocatedPorts {
        assert FirstFree(table, BasePort(name), 0) && basePort !in table.byPort;
        allocatedPorts := allocatedPorts[basePort := name];
        nodeNameToPort := nodeNameToPort[name := basePort];
        AllocatedIsFirstFree(table, name, State(), Success(basePort));
        return Success(basePort);
      }
      for offset := 1 to PORT_MAX - PORT_MIN + 1
        invariant State() == table
        invariant forall j :: 0 <= j < offset ==> Probe(basePort, j) in allocatedPorts
      {
        var candidate := basePort + offset;
        if candidate > PORT_MAX {
          candidate := PORT_MIN + (candidate - PORT_MAX - 1);
        }
        ProbeByOffset(basePort, offset);
        if candidate !in allocatedPorts {
          assert FirstFree(table, BasePort(name), offset) && candidate !in table.byPort;
          allocatedPorts := allocatedPorts[candidate := name];
          nodeNameToPort := nodeNameToPort[name := candidate];
          AllocatedIsFirstFree(table, name, State(), Success(candidate));
          return Success(candidate);
        }
      }
      forall p | PORT_MIN <= p <= PORT_MAX ensures p in allocatedPorts {
        ProbeBijection(basePort, 0, p);
        assert Probe(basePort, ProbeIndex(basePort, p)) in allocatedPorts;
      }
      return Failure("no available ports");
    }

    method ReleaseProxierPort(name: string)
      modifies this
      ensures State() == Released(old(State()), name)
      ensures name !in nodeNameToPort && forall n :: n in old(nodeNameToPort) && n != name ==> n in nodeNameToPort
      ensures forall n :: n in nodeNameToPort ==>
                n in old(nodeNameToPort) && nodeNameToPort[n] == old(nodeNameToPort)[n]
      ensures forall p :: p in allocatedPorts <==>
                p in old(allocatedPorts) && !(name in old(nodeNameToPort) && old(nodeNameToPort)[name] == p)
      ensures forall p :: p in allocatedPorts ==> allocatedPorts[p] == old(allocatedPorts)[p]
    {
      if name in nodeNameToPort {
        allocatedPorts := allocatedPorts - {nodeNameToPort[name]};
        nodeNameToPort := nodeNameToPort - {name};
      }
    }
  }

  // ---------- Every sequence of allocations and releases ----------

  /** One operation and its result; a trace lists them in order. */
  datatype Op = Allocate(name: string, r: Result<int>) | Release(name: string)

  ghost predicate Step(t: Table, op: Op, t': Table) {
    match op
    case Allocate(name, r) => Allocates(t, name, t', r)
    case Release(name) => t' == Released(t, name)
  }

  ghost predicate Trace(states: seq<Table>, ops: seq<Op>) {
    && |states| == |ops| + 1
    && forall i :: 0 <= i < |ops| ==> Step(states[i], ops[i], states[i + 1])
  }

  lemma StepKeepsInverse(t: Table, op: Op, t': Table)
    requires Inverse(t) && Step(t, op, t')
    ensures Inverse(t')
  {
  }

  /** On every trace the maps stay mutually inverse, so no port is ever held by two nodes. */
  lemma {:induction false} TraceKeepsInverse(states: seq<Table>, ops: seq<Op>, i: nat)
    requires Trace(states, ops) && Inverse(states[0]) && i < |states|
    ensures Inverse(states[i])
  {
    if i > 0 {
      TraceKeepsInverse(states, ops, i - 1);
      StepKeepsInverse(states[i - 1], ops[i - 1], states[i]);
    }
  }

  lemma {:induction false} KeepsPort(states: seq<Table>, ops: seq<Op>, i: nat, j: nat, name: string)
    requires Trace(states, ops) && i <= j < |states|
    requires name in states[i].byName
    requires forall k :: i <= k < j ==> ops[k] != Release(name)
    ensures name in states[j].byName && states[j].byName[name] == states[i].byName[name]
  {
    if i < j {
      KeepsPort(states, ops, i, j - 1, name);
      assert Step(states[j - 1], ops[j - 1], states[j]);
      assert ops[j - 1] != Release(name);
    }
  }

  /** Until its release a node gets the same port on every allocation, and the port is in range if it was fresh. */
  lemma RepeatedAllocationIsStable(states: seq<Table>, ops: seq<Op>, i: nat, j: nat, name: string, port: int)
    requires Trace(states, ops) && i < j < |ops|
    requires ops[i] == Allocate(name, Success(port)) && ops[j].Allocate? && ops[j].name == name
    requires forall k :: i <= k < j ==> ops[k] != Release(name)
    ensures ops[j].r == Success(port)
    ensures name !in states[i].byName ==> PORT_MIN <= port <= PORT_MAX
  {
    assert Step(states[i], ops[i], states[i + 1]);
    assert name in states[i + 1].byName && states[i + 1].byName[name] == port;
    KeepsPort(states, ops, i + 1, j, name);
    assert Step(states[j], ops[j], states[j + 1]);
  }

  /** Two nodes that hold ports at the same time hold different ones. */
  lemma LivePortsAreDistinct(states: seq<Table>, ops: seq<Op>, i: nat, a: string, b: string)
    requires Trace(states, ops) && Inverse(states[0]) && i < |states|
    requires a in states[i].byName && b in states[i].byName && a != b
    ensures states[i].byName[a] != states[i].byName[b]
  {
    TraceKeepsInverse(states, ops, i);
  }

  ghost predicate InRange(t: Table) {
    forall p :: p in t.byPort ==> PORT_MIN <= p <= PORT_MAX
  }

  ghost function Interval(lo: int, hi: int): (s: set<int>)
    requires lo <= hi
    ensures forall p :: p in s <==> lo <= p < hi
    ensures |s| == hi - lo
    decreases hi - lo
  {
    if lo == hi then {} else Interval(lo, hi - 1) + {hi - 1}
  }

  /** With labels in range, allocating for a new node fails exactly when all 50536 ports are taken. */
  lemma FailsOnlyWhenExhausted(t: Table, name: string, t': Table, r: Result<int>)
    requires InRange(t) && name !in t.byName && Allocates(t, name, t', r)
    ensures r.Failure? <==> |t.byPort| == 50536
  {
    var all := Interval(PORT_MIN, PORT_MAX + 1);
    assert t.byPort.Keys <= all;
    assert Full(t) <==> t.byPort.Keys == all;
    if |t.byPort| == 50536 {
      SubsetOfSameSize(t.byPort.Keys, all);
    }
  }

  lemma SubsetOfSameSize(a: set<int>, b: set<int>)
    requires a <= b && |a| == |b|
    ensures a == b
  {
    assert a * b == a;
    assert |b - a| == |b| - |a| == 0;
    assert b - a == {};
  }

  // ---------- Restart ----------

  function PortOf(v: VNode): Option<int> {
    if v.portLabel.None? then None else Atoi(v.portLabel.value)
  }

  /** The table read from a list of virtual nodes; a later node overwrites an earlier one. */
  function Loaded(vnodes: seq<VNode>): Table {
    if vnodes == [] then EMPTY
    else
      var v := vnodes[|vnodes| - 1];
      var t := Loaded(vnodes[..|vnodes| - 1]);
      if PortOf(v).None? then t else Claim(t, v.name, PortOf(v).value)
  }

  ghost predicate DistinctNames(vnodes: seq<VNode>) {
    forall i, j :: 0 <= i < j < |vnodes| ==> vnodes[i].name != vnodes[j].name
  }

  ghost predicate DistinctPorts(vnodes: seq<VNode>) {
    forall i, j :: 0 <= i < j < |vnodes| && PortOf(vnodes[i]).Some? ==> PortOf(vnodes[i]) != PortOf(vnodes[j])
  }

  lemma {:induction false} LoadedAt(vnodes: seq<VNode>, i: nat)
    requires DistinctNames(vnodes) && i < |vnodes| && PortOf(vnodes[i]).Some?
    ensures vnodes[i].name in Loaded(vnodes).byName && Loaded(vnodes).byName[vnodes[i].name] == PortOf(vnodes[i]).value
    ensures PortOf(vnodes[i]).value in Loaded(vnodes).byPort
  {
    if i < |vnodes| - 1 {
      var init := vnodes[..|vnodes| - 1];
      assert init[i] == vnodes[i] && vnodes[i].name != vnodes[|vnodes| - 1].name;
      LoadedAt(init, i);
    }
  }

  lemma {:induction false} LoadedName(vnodes: seq<VNode>, name: string) returns (i: nat)
    requires name in Loaded(vnodes).byName
    ensures i < |vnodes| && vnodes[i].name == name && PortOf(vnodes[i]).Some?
  {
    i := |vnodes| - 1;
    if vnodes[i].name != name || PortOf(vnodes[i]).None? {
      i := LoadedName(vnodes[..i], name);
    }
  }

  lemma {:induction false} LoadedPort(vnodes: seq<VNode>, port: int) returns (i: nat)
    requires port in Loaded(vnodes).byPort
    ensures i < |vnodes| && PortOf(vnodes[i]) == Some(port)
  {
    i := |vnodes| - 1;
    if PortOf(vnodes[i]) != Some(port) {
      i := LoadedPort(vnodes[..i], port);
    }
  }

  lemma {:induction false} DistinctLoadsInverse(vnodes: seq<VNode>)
    requires DistinctNames(vnodes) && DistinctPorts(vnodes)
    ensures Inverse(Loaded(vnodes))
  {
    if vnodes != [] {
      var init := vnodes[..|vnodes| - 1];
      var v := vnodes[|vnodes| - 1];
      DistinctLoadsInverse(init);
      if v.name in Loaded(init).byName {
        var i := LoadedName(init, v.name);
      }
      if PortOf(v).Some? && PortOf(v).value in Loaded(init).byPort {
        var i := LoadedPort(init, PortOf(v).value);
      }
    }
  }

  /** A node is known exactly if its label can be read, under the port of its last label. */
  lemma {:induction false} LoadedMeans(vnodes: seq<VNode>, name: string)
    ensures name in Loaded(vnodes).byName <==> exists i :: IsLastLabel(vnodes, name, i)
    ensures forall i :: IsLastLabel(vnodes, name, i) ==>
              name in Loaded(vnodes).byName && Loaded(vnodes).byName[name] == PortOf(vnodes[i]).value
  {
    if vnodes != [] {
      var n := |vnodes| - 1;
      LoadedMeans(vnodes[..n], name);
      if vnodes[n].name == name && PortOf(vnodes[n]).Some? {
        assert IsLastLabel(vnodes, name, n);
      } else {
        SameLastLabel(vnodes, name);
        if i :| IsLastLabel(vnodes[..n], name, i) {
          assert IsLastLabel(vnodes, name, i);
        }
      }
    }
  }

  lemma SameLastLabel(vnodes: seq<VNode>, name: string)
    requires vnodes != []
    requires vnodes[|vnodes| - 1].name != name || PortOf(vnodes[|vnodes| - 1]).None?
    ensures forall i :: IsLastLabel(vnodes, name, i) <==> IsLastLabel(vnodes[..|vnodes| - 1], name, i)
  {
  }

  ghost predicate IsLastLabel(vnodes: seq<VNode>, name: string, i: int) {
    && 0 <= i < |vnodes| && vnodes[i].name == name && PortOf(vnodes[i]).Some?
    && forall j :: i < j < |vnodes| ==> !(vnodes[j].name == name && PortOf(vnodes[j]).Some?)
  }

  /** Rebuilding from labels gives inverse maps exactly if no two nodes carry the same port. */
  lemma InitIsInverseIffPortsDistinct(vnodes: seq<VNode>)
    requires DistinctNames(vnodes)
    ensures Inverse(Loaded(vnodes)) <==> DistinctPorts(vnodes)
  {
    if DistinctPorts(vnodes) {
      DistinctLoadsInverse(vnodes);
    } else {
      var i, j :| 0 <= i < j < |vnodes| && PortOf(vnodes[i]).Some? && PortOf(vnodes[i]) == PortOf(vnodes[j]);
      LoadedAt(vnodes, i);
      LoadedAt(vnodes, j);
      assert vnodes[i].name != vnodes[j].name;
    }
  }

  /** The label under which a table's port of a node is stored. */
  function Label(t: Table, name: string): Option<string> {
    if name in t.byName && t.byName[name] >= 0 then Some(Itoa(t.byName[name])) else None
  }

  /** After a restart the allocator knows exactly the ports it had written to the nodes' labels. */
  lemma RestartRestoresTable(t: Table, vnodes: seq<VNode>)
    requires Inverse(t) && InRange(t) && DistinctNames(vnodes)
    requires forall i :: 0 <= i < |vnodes| ==> vnodes[i].portLabel == Label(t, vnodes[i].name)
    requires forall n :: n in t.byName ==> exists i :: 0 <= i < |vnodes| && vnodes[i].name == n
    ensures Loaded(vnodes) == t
  {
    var l := Loaded(vnodes);
    forall i | 0 <= i < |vnodes|
      ensures LabelReadsBack(t, vnodes[i])
      ensures PortOf(vnodes[i]).Some? ==> vnodes[i].name in t.byName
    {
      if vnodes[i].name in t.byName {
        assert t.byName[vnodes[i].name] in t.byPort;
        AtoiOfItoa(t.byName[vnodes[i].name]);
      }
    }
    forall n ensures n in l.byName <==> n in t.byName
      ensures n in t.byName ==> l.byName[n] == t.byName[n]
    {
      if n in t.byName {
        var i :| 0 <= i < |vnodes| && vnodes[i].name == n;
        assert LabelReadsBack(t, vnodes[i]);
        LoadedAt(vnodes, i);
      } else if n in l.byName {
        var i := LoadedName(vnodes, n);
      }
    }
    forall i, j | 0 <= i < j < |vnodes| && PortOf(vnodes[i]).Some? ensures PortOf(vnodes[i]) != PortOf(vnodes[j]) {
      assert LabelReadsBack(t, vnodes[i]) && LabelReadsBack(t, vnodes[j]);
      assert vnodes[i].name != vnodes[j].name;
    }
    DistinctLoadsInverse(vnodes);
    InverseDetermined(l, t);
  }

  ghost predicate LabelReadsBack(t: Table, v: VNode) {
    PortOf(v) == if v.name in t.byName then Some(t.byName[v.name]) else None
  }

  lemma InverseDetermined(a: Table, b: Table)
    requires Inverse(a) && Inverse(b)
    requires forall n :: n in a.byName <==> n in b.byName
    requires forall n :: n in b.byName ==> a.byName[n] == b.byName[n]
    ensures a == b
  {
    assert a.byName == b.byName;
    forall p ensures p in a.byPort <==> p in b.byPort
      ensures p in a.byPort ==> a.byPort[p] == b.byPort[p]
    {
    }
    assert a.byPort == b.byPort;
  }
}
