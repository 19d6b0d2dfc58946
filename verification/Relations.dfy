/** The relationship engine (internal/modules/discovery/relate.go and the
    relating step of collect.go): edges are functional by construction, both
    their ends are tracked, and an address is owned by the one interface that
    has it. */
module Relations {
  import opened Sorting
  import opened Capacity

  type Pid = nat

  datatype RelType = ParentProcess | RunsService | RunsInContainer | ContainerInPod | EndpointOwnedBy | EndpointBoundTo

  datatype Evidence = Ppid | CgroupUnit | CgroupContainer | CgroupPod | ServiceManager | SocketInode | SocketTable | InterfaceAddress

  /** An edge between local entity keys; the empty key is 0. */
  datatype Relationship = Relationship(typ: RelType, from: Key, to: Key, evidence: Evidence, main: bool)

  type Slot = (Key, RelType)
  type Edges = map<Slot, Relationship>

  function SlotOf(r: Relationship): Slot { (r.from, r.typ) }

  predicate Meaningful(r: Relationship) {
    r.from != 0 && r.to != 0 && r.from != r.to
  }

  // ---- the edge set ----

  function AddEdge(e: Edges, r: Relationship): Edges {
    if !Meaningful(r) || SlotOf(r) in e then e else e[SlotOf(r) := r]
  }

  predicate Conflicts(e: Edges, r: Relationship) {
    Meaningful(r) && SlotOf(r) in e && e[SlotOf(r)].to != r.to
  }

  function AddAll(e: Edges, rs: seq<Relationship>): Edges {
    if rs == [] then e else AddEdge(AddAll(e, rs[..|rs|-1]), rs[|rs|-1])
  }

  function CountConflicts(e: Edges, rs: seq<Relationship>): nat {
    if rs == [] then 0
    else CountConflicts(e, rs[..|rs|-1]) + if Conflicts(AddAll(e, rs[..|rs|-1]), rs[|rs|-1]) then 1 else 0
  }

  lemma {:induction false} AddAllJoin(e: Edges, a: seq<Relationship>, b: seq<Relationship>)
    ensures AddAll(e, a + b) == AddAll(AddAll(e, a), b)
    ensures CountConflicts(e, a + b) == CountConflicts(e, a) + CountConflicts(AddAll(e, a), b)
  {
    if b == [] {
      assert a + b == a;
    } else {
      AddAllJoin(e, a, b[..|b|-1]);
      assert (a + b)[..|a+b|-1] == a + b[..|b|-1];
    }
  }

  class RelationSet {
    var byKey: Edges
    var conflicts: nat

    constructor ()
      ensures byKey == map[] && conflicts == 0
    {
      byKey, conflicts := map[], 0;
    }

    /** Record an edge, unless its source already has one of that type. */
    method Add(r: Relationship) returns (added: bool)
      modifies this
      ensures byKey == AddEdge(old(byKey), r) && added == (byKey != old(byKey))
      ensures conflicts == old(conflicts) + if Conflicts(old(byKey), r) then 1 else 0
    {
      added := false;
      if r.from == 0 || r.to == 0 || r.from == r.to { return; }
      if SlotOf(r) in byKey {
        if byKey[SlotOf(r)].to != r.to { conflicts := conflicts + 1; }
        return;
      }
      byKey := byKey[SlotOf(r) := r];
      added := true;
    }

    /** The same, as one step of a longer list. */
    method Propose(r: Relationship, ghost e: Edges, ghost so: seq<Relationship>, ghost base: nat)
      requires byKey == AddAll(e, so) && conflicts == base + CountConflicts(e, so)
      modifies this
      ensures byKey == AddAll(e, so + [r]) && conflicts == base + CountConflicts(e, so + [r])
    {
      assert (so + [r])[..|so|] == so;
      var _ := Add(r);
    }
  }

  /** Which proposal an edge is: the first meaningful one for its source and type. */
  ghost predicate FirstFor(rs: seq<Relationship>, slot: Slot, i: nat) {
    && i < |rs| && Meaningful(rs[i]) && SlotOf(rs[i]) == slot
    && forall j :: 0 <= j < i ==> !(Meaningful(rs[j]) && SlotOf(rs[j]) == slot)
  }

  /** First writer wins: the edge set holds, for each source and type that was
      proposed at all, exactly its first meaningful proposal. */
  lemma {:induction false} FirstWriterWins(rs: seq<Relationship>, slot: Slot)
    ensures slot in AddAll(map[], rs) <==> exists i: nat :: FirstFor(rs, slot, i)
    ensures forall i: nat :: FirstFor(rs, slot, i) ==> slot in AddAll(map[], rs) && AddAll(map[], rs)[slot] == rs[i]
  {
    if rs != [] {
      var rest, n := rs[..|rs|-1], |rs| - 1;
      FirstWriterWins(rest, slot);
      forall i: nat | FirstFor(rest, slot, i) ensures FirstFor(rs, slot, i) {
        assert forall j :: 0 <= j < |rest| ==> rest[j] == rs[j];
      }
      forall i: nat | FirstFor(rs, slot, i) && i < n ensures FirstFor(rest, slot, i) {
        assert forall j :: 0 <= j < |rest| ==> rest[j] == rs[j];
      }
      if slot !in AddAll(map[], rest) && Meaningful(rs[n]) && SlotOf(rs[n]) == slot {
        NoneBefore(rest, slot, |rest|);
        assert forall j :: 0 <= j < n ==> rs[j] == rest[j];
        assert FirstFor(rs, slot, n);
      }
    }
  }

  /** If no proposal is the first, there is none. */
  lemma {:induction false} NoneBefore(rs: seq<Relationship>, slot: Slot, n: nat)
    requires n <= |rs| && forall i: nat :: !FirstFor(rs, slot, i)
    ensures forall j :: 0 <= j < n ==> !(Meaningful(rs[j]) && SlotOf(rs[j]) == slot)
  {
    if n > 0 {
      NoneBefore(rs, slot, n - 1);
      assert !FirstFor(rs, slot, n - 1);
    }
  }

  // ---- the linear bound ----

  /** Every edge is filed under its own source and type, is no self-edge, and
      joins two tracked entities. */
  ghost predicate Closed(e: Edges, tracked: set<Key>) {
    forall s :: s in e ==> SlotOf(e[s]) == s && Meaningful(e[s]) && e[s].from in tracked && e[s].to in tracked
  }

  ghost predicate EndsTracked(rs: seq<Relationship>, tracked: set<Key>) {
    forall r :: r in rs ==> r.from in tracked && r.to in tracked
  }

  lemma {:induction false} AddAllClosed(e: Edges, rs: seq<Relationship>, tracked: set<Key>)
    requires Closed(e, tracked) && EndsTracked(rs, tracked)
    ensures Closed(AddAll(e, rs), tracked)
  {
    if rs != [] { AddAllClosed(e, rs[..|rs|-1], tracked); }
  }

  const AllTypes: set<RelType> := {ParentProcess, RunsService, RunsInContainer, ContainerInPod, EndpointOwnedBy, EndpointBoundTo}

  ghost function Slots(tracked: set<Key>): set<Slot> {
    set k, t | k in tracked && t in AllTypes :: (k, t)
  }

  lemma OwnSlots(k: Key)
    ensures |Slots({k})| == 6
  {
    var a: set<Slot> := {(k, ParentProcess), (k, RunsService), (k, RunsInContainer)};
    var b: set<Slot> := {(k, ContainerInPod), (k, EndpointOwnedBy), (k, EndpointBoundTo)};
    assert |a| == 3 && |b| == 3 && a !! b;
    assert Slots({k}) == a + b;
  }

  lemma {:induction false} SlotCount(tracked: set<Key>)
    ensures |Slots(tracked)| == 6 * |tracked|
    decreases tracked
  {
    if tracked == {} {
      assert Slots(tracked) == {};
    } else {
      var k :| k in tracked;
      SlotCount(tracked - {k});
      OwnSlots(k);
      var own := Slots({k});
      assert Slots(tracked) == Slots(tracked - {k}) + own && Slots(tracked - {k}) !! own;
    }
  }

  lemma SubsetSize<T>(a: set<T>, b: set<T>)
    requires a <= b
    ensures |a| <= |b|
  {
    assert b == a + (b - a);
  }

  lemma EveryType(t: RelType)
    ensures t in AllTypes
  {
    match t
    case ParentProcess =>
    case _ =>
  }

  /** There are at most six edges per tracked entity. */
  lemma LinearBound(e: Edges, tracked: set<Key>)
    requires Closed(e, tracked)
    ensures |e| <= 6 * |tracked|
  {
    forall s | s in e ensures s in Slots(tracked) {
      assert s == SlotOf(e[s]);
      EveryType(s.1);
    }
    SlotCount(tracked);
    SubsetSize(e.Keys, Slots(tracked));
  }

  // ---- the facts of one cycle ----

  datatype ProcessFacts = ProcessFacts(pid: Pid, ppid: Pid)

  /** A unit or container identifier of 0 means the cgroup path named none. */
  datatype CgroupEvidence = CgroupEvidence(unit: nat, containerID: nat)

  datatype ContainerFacts = ContainerFacts(id: nat, podUID: nat)

  datatype EndpointName = EndpointName(protocol: nat, address: string, port: nat)

  datatype EndpointFacts = EndpointFacts(name: EndpointName, hasOwner: bool, owner: Pid, inode: nat)

  datatype InterfaceFacts = InterfaceFacts(name: nat, addresses: seq<string>)

  datatype Facts = Facts(
    procs: seq<ProcessFacts>, cgroups: map<Pid, CgroupEvidence>, containers: seq<ContainerFacts>,
    endpoints: seq<EndpointFacts>, ifaces: seq<InterfaceFacts>)

  /** Which entity stands for which observed thing. */
  datatype Index = Index(
    procs: map<Pid, Key>, services: map<nat, Key>, containers: map<nat, Key>, pods: map<nat, Key>,
    ifaces: map<nat, Key>, endpoints: map<EndpointName, Key>, mainPids: map<Pid, Key>)

  /** Only what the table holds may be an end of an edge. */
  function AdmittedKeys<K>(tracked: set<Key>, m: map<K, Key>): map<K, Key> {
    map k | k in m && m[k] in tracked :: m[k]
  }

  function AdmittedIndex(tracked: set<Key>, x: Index): Index {
    Index(AdmittedKeys(tracked, x.procs), AdmittedKeys(tracked, x.services), AdmittedKeys(tracked, x.containers),
      AdmittedKeys(tracked, x.pods), AdmittedKeys(tracked, x.ifaces), AdmittedKeys(tracked, x.endpoints),
      AdmittedKeys(tracked, x.mainPids))
  }

  ghost predicate IndexIn(x: Index, tracked: set<Key>) {
    && x.procs.Values <= tracked && x.services.Values <= tracked && x.containers.Values <= tracked
    && x.pods.Values <= tracked && x.ifaces.Values <= tracked && x.endpoints.Values <= tracked && x.mainPids.Values <= tracked
  }

  // ---- what each fact proposes ----

  function ParentEdge(f: ProcessFacts, x: Index): seq<Relationship> {
    if f.pid in x.procs && f.ppid in x.procs
    then [Relationship(ParentProcess, x.procs[f.pid], x.procs[f.ppid], Ppid, false)] else []
  }

  /** The service manager's own report beats the cgroup path. */
  function ServiceEdge(f: ProcessFacts, cgroups: map<Pid, CgroupEvidence>, x: Index): seq<Relationship> {
    if f.pid !in x.procs then []
    else if f.pid in x.mainPids then [Relationship(RunsService, x.procs[f.pid], x.mainPids[f.pid], ServiceManager, true)]
    else if f.pid in cgroups && cgroups[f.pid].unit != 0 && cgroups[f.pid].unit in x.services
    then [Relationship(RunsService, x.procs[f.pid], x.services[cgroups[f.pid].unit], CgroupUnit, false)]
    else []
  }

  function ContainerEdge(f: ProcessFacts, cgroups: map<Pid, CgroupEvidence>, x: Index): seq<Relationship> {
    if f.pid in x.procs && f.pid in cgroups && cgroups[f.pid].containerID != 0 && cgroups[f.pid].containerID in x.containers
    then [Relationship(RunsInContainer, x.procs[f.pid], x.containers[cgroups[f.pid].containerID], CgroupContainer, false)]
    else []
  }

  function ProcessEdges(f: ProcessFacts, cgroups: map<Pid, CgroupEvidence>, x: Index): seq<Relationship> {
    ParentEdge(f, x) + ServiceEdge(f, cgroups, x) + ContainerEdge(f, cgroups, x)
  }

  function PodEdge(c: ContainerFacts, x: Index): seq<Relationship> {
    if c.podUID != 0 && c.id in x.containers && c.podUID in x.pods
    then [Relationship(ContainerInPod, x.containers[c.id], x.pods[c.podUID], CgroupPod, false)] else []
  }

  function OwnerEdge(e: EndpointFacts, x: Index): seq<Relationship> {
    if e.name in x.endpoints && e.hasOwner && e.owner in x.procs
    then [Relationship(EndpointOwnedBy, x.endpoints[e.name], x.procs[e.owner], if e.inode == 0 then SocketTable else SocketInode, false)]
    else []
  }

  function BoundEdge(e: EndpointFacts, x: Index, owners: map<string, Key>): seq<Relationship> {
    if e.name in x.endpoints && e.name.address in owners
    then [Relationship(EndpointBoundTo, x.endpoints[e.name], owners[e.name.address], InterfaceAddress, false)] else []
  }

  function AllProcessEdges(fs: seq<ProcessFacts>, cgroups: map<Pid, CgroupEvidence>, x: Index): seq<Relationship> {
    if fs == [] then [] else AllProcessEdges(fs[..|fs|-1], cgroups, x) + ProcessEdges(fs[|fs|-1], cgroups, x)
  }

  function AllPodEdges(cs: seq<ContainerFacts>, x: Index): seq<Relationship> {
    if cs == [] then [] else AllPodEdges(cs[..|cs|-1], x) + PodEdge(cs[|cs|-1], x)
  }

  function AllEndpointEdges(es: seq<EndpointFacts>, x: Index, owners: map<string, Key>): seq<Relationship> {
    if es == [] then []
    else AllEndpointEdges(es[..|es|-1], x, owners) + (OwnerEdge(es[|es|-1], x) + BoundEdge(es[|es|-1], x, owners))
  }

  lemma {:induction false} ProcessEndsTracked(fs: seq<ProcessFacts>, cgroups: map<Pid, CgroupEvidence>, x: Index, tracked: set<Key>)
    requires IndexIn(x, tracked)
    ensures EndsTracked(AllProcessEdges(fs, cgroups, x), tracked)
  {
    hide IndexIn, ProcessEdges;
    if fs != [] {
      ProcessEndsTracked(fs[..|fs|-1], cgroups, x, tracked);
      OneProcessTracked(fs[|fs|-1], cgroups, x, tracked);
    }
  }

  lemma OneProcessTracked(f: ProcessFacts, cgroups: map<Pid, CgroupEvidence>, x: Index, tracked: set<Key>)
    requires IndexIn(x, tracked)
    ensures EndsTracked(ProcessEdges(f, cgroups, x), tracked)
  {
    assert EndsTracked(ParentEdge(f, x), tracked);
    assert EndsTracked(ServiceEdge(f, cgroups, x), tracked);
    assert EndsTracked(ContainerEdge(f, cgroups, x), tracked);
  }

  lemma {:induction false} PodEndsTracked(cs: seq<ContainerFacts>, x: Index, tracked: set<Key>)
    requires IndexIn(x, tracked)
    ensures EndsTracked(AllPodEdges(cs, x), tracked)
  {
    if cs != [] { PodEndsTracked(cs[..|cs|-1], x, tracked); }
  }

  lemma {:induction false} EndpointEndsTracked(es: seq<EndpointFacts>, x: Index, owners: map<string, Key>, tracked: set<Key>)
    requires IndexIn(x, tracked) && owners.Values <= tracked
    ensures EndsTracked(AllEndpointEdges(es, x, owners), tracked)
  {
    if es != [] { EndpointEndsTracked(es[..|es|-1], x, owners, tracked); }
  }

  // ---- relating, in place ----

  method RelateProcesses(rs: RelationSet, fs: seq<ProcessFacts>, cgroups: map<Pid, CgroupEvidence>, x: Index)
    modifies rs
    ensures rs.byKey == AddAll(old(rs.byKey), AllProcessEdges(fs, cgroups, x))
    ensures rs.conflicts == old(rs.conflicts) + CountConflicts(old(rs.byKey), AllProcessEdges(fs, cgroups, x))
  {
    ghost var e, base, so := rs.byKey, rs.conflicts, [];
    for i := 0 to |fs|
      invariant so == AllProcessEdges(fs[..i], cgroups, x)
      invariant rs.byKey == AddAll(e, so) && rs.conflicts == base + CountConflicts(e, so)
    {
      assert fs[..i+1][..i] == fs[..i];
      so := RelateProcess(rs, fs[i], cgroups, x, e, so, base);
    }
    assert fs[..|fs|] == fs;
  }

  method RelateProcess(rs: RelationSet, f: ProcessFacts, cgroups: map<Pid, CgroupEvidence>, x: Index,
      ghost e: Edges, ghost before: seq<Relationship>, ghost base: nat) returns (ghost so: seq<Relationship>)
    requires rs.byKey == AddAll(e, before) && rs.conflicts == base + CountConflicts(e, before)
    modifies rs
    ensures so == before + ProcessEdges(f, cgroups, x)
    ensures rs.byKey == AddAll(e, so) && rs.conflicts == base + CountConflicts(e, so)
  {
    hide AddAll, CountConflicts;
    so := before;
    if f.pid !in x.procs { return; }
    var from := x.procs[f.pid];
    if f.ppid in x.procs {
      var r := Relationship(ParentProcess, from, x.procs[f.ppid], Ppid, false);
      rs.Propose(r, e, so, base);
      so := so + [r];
    }
    if f.pid in x.mainPids {
      var r := Relationship(RunsService, from, x.mainPids[f.pid], ServiceManager, true);
      rs.Propose(r, e, so, base);
      so := so + [r];
    } else if f.pid in cgroups && cgroups[f.pid].unit != 0 {
      if cgroups[f.pid].unit in x.services {
        var r := Relationship(RunsService, from, x.services[cgroups[f.pid].unit], CgroupUnit, false);
        rs.Propose(r, e, so, base);
        so := so + [r];
      }
    }
    if f.pid in cgroups && cgroups[f.pid].containerID != 0 {
      if cgroups[f.pid].containerID in x.containers {
        var r := Relationship(RunsInContainer, from, x.containers[cgroups[f.pid].containerID], CgroupContainer, false);
        rs.Propose(r, e, so, base);
        so := so + [r];
      }
    }
  }

  method RelateContainersToPods(rs: RelationSet, cs: seq<ContainerFacts>, x: Index)
    modifies rs
    ensures rs.byKey == AddAll(old(rs.byKey), AllPodEdges(cs, x))
    ensures rs.conflicts == old(rs.conflicts) + CountConflicts(old(rs.byKey), AllPodEdges(cs, x))
  {
    ghost var e, base, so := rs.byKey, rs.conflicts, [];
    for i := 0 to |cs|
      invariant so == AllPodEdges(cs[..i], x)
      invariant rs.byKey == AddAll(e, so) && rs.conflicts == base + CountConflicts(e, so)
    {
      assert cs[..i+1][..i] == cs[..i];
      var c := cs[i];
      if c.podUID == 0 || c.id !in x.containers { continue; }
      if c.podUID in x.pods {
        var r := Relationship(ContainerInPod, x.containers[c.id], x.pods[c.podUID], CgroupPod, false);
        rs.Propose(r, e, so, base);
        so := so + [r];
      }
    }
    assert cs[..|cs|] == cs;
  }

  method RelateEndpoints(rs: RelationSet, es: seq<EndpointFacts>, x: Index, owners: map<string, Key>)
    modifies rs
    ensures rs.byKey == AddAll(old(rs.byKey), AllEndpointEdges(es, x, owners))
    ensures rs.conflicts == old(rs.conflicts) + CountConflicts(old(rs.byKey), AllEndpointEdges(es, x, owners))
  {
    ghost var e, base, so := rs.byKey, rs.conflicts, [];
    for i := 0 to |es|
      invariant so == AllEndpointEdges(es[..i], x, owners)
      invariant rs.byKey == AddAll(e, so) && rs.conflicts == base + CountConflicts(e, so)
    {
      assert es[..i+1][..i] == es[..i];
      so := RelateEndpoint(rs, es[i], x, owners, e, so, base);
    }
    assert es[..|es|] == es;
  }

  method RelateEndpoint(rs: RelationSet, f: EndpointFacts, x: Index, owners: map<string, Key>,
      ghost e: Edges, ghost before: seq<Relationship>, ghost base: nat) returns (ghost so: seq<Relationship>)
    requires rs.byKey == AddAll(e, before) && rs.conflicts == base + CountConflicts(e, before)
    modifies rs
    ensures so == before + (OwnerEdge(f, x) + BoundEdge(f, x, owners))
    ensures rs.byKey == AddAll(e, so) && rs.conflicts == base + CountConflicts(e, so)
  {
    hide AddAll, CountConflicts;
    so := before;
    if f.name !in x.endpoints { return; }
    var from := x.endpoints[f.name];
    if f.hasOwner {
      if f.owner in x.procs {
        var ev := SocketInode;
        if f.inode == 0 { ev := SocketTable; }
        var r := Relationship(EndpointOwnedBy, from, x.procs[f.owner], ev, false);
        rs.Propose(r, e, so, base);
        so := so + [r];
      }
    }
    if f.name.address in owners {
      var r := Relationship(EndpointBoundTo, from, owners[f.name.address], InterfaceAddress, false);
      rs.Propose(r, e, so, base);
      so := so + [r];
    }
  }

  // ---- which interface owns an address ----

  /** The position of the last '/', or -1. */
  function LastSlash(s: string): (i: int)
    ensures -1 <= i < |s|
    ensures i >= 0 ==> s[i] == '/'
    ensures forall j :: i < j < |s| ==> s[j] != '/'
  {
    if s == "" then -1
    else if s[|s|-1] == '/' then |s| - 1
    else LastSlash(s[..|s|-1])
  }

  /** An address without its prefix length. */
  function AddressOf(cidr: string): string {
    if LastSlash(cidr) < 0 then cidr else cidr[..LastSlash(cidr)]
  }

  predicate IsWildcard(addr: string) {
    addr == "0.0.0.0" || addr == "::" || addr == ""
  }

  /** What one interface's address claims for it. */
  ghost function Claim(cidr: string, key: Key): set<(string, Key)> {
    if IsWildcard(AddressOf(cidr)) then {} else {(AddressOf(cidr), key)}
  }

  ghost function OwnClaims(addresses: seq<string>, key: Key): set<(string, Key)> {
    if addresses == [] then {}
    else OwnClaims(addresses[..|addresses|-1], key) + Claim(addresses[|addresses|-1], key)
  }

  /** Which tracked interface claims which address. */
  ghost function Claims(ifaces: seq<InterfaceFacts>, keys: map<nat, Key>): set<(string, Key)> {
    if ifaces == [] then {}
    else
      var f := ifaces[|ifaces|-1];
      Claims(ifaces[..|ifaces|-1], keys) + if f.name in keys then OwnClaims(f.addresses, keys[f.name]) else {}
  }

  ghost predicate HasAddress(f: InterfaceFacts, a: string) {
    !IsWildcard(a) && exists c :: c in f.addresses && AddressOf(c) == a
  }

  lemma {:induction false} OwnClaimsAt(addresses: seq<string>, key: Key, a: string, k: Key)
    ensures (a, k) in OwnClaims(addresses, key) <==> k == key && !IsWildcard(a) && exists c :: c in addresses && AddressOf(c) == a
  {
    if addresses != [] {
      var rest, last := addresses[..|addresses|-1], addresses[|addresses|-1];
      OwnClaimsAt(rest, key, a, k);
      assert addresses == rest + [last];
      assert last in addresses;
      hide AddressOf, IsWildcard;
    }
  }

  /** The claims do not depend on the order of enumeration: an address is claimed
      for an interface exactly when some admitted interface with that key has it. */
  lemma {:induction false} ClaimsAt(ifaces: seq<InterfaceFacts>, keys: map<nat, Key>, a: string, k: Key)
    ensures (a, k) in Claims(ifaces, keys) <==> exists f :: f in ifaces && f.name in keys && keys[f.name] == k && HasAddress(f, a)
  {
    if ifaces != [] {
      var rest, last := ifaces[..|ifaces|-1], ifaces[|ifaces|-1];
      ClaimsAt(rest, keys, a, k);
      if last.name in keys { OwnClaimsAt(last.addresses, keys[last.name], a, k); }
      assert ifaces == rest + [last];
      assert last in ifaces;
      hide AddressOf, IsWildcard, OwnClaims;
    }
  }

  /** Only interface `k` claims `addr`. */
  ghost predicate SoleOwner(claims: set<(string, Key)>, addr: string, k: Key) {
    (addr, k) in claims && forall j :: (addr, j) in claims ==> j == k
  }

  /** What the scan knows after the claims in `claims`. */
  ghost predicate Scanned(claims: set<(string, Key)>, owners: map<string, Key>, ambiguous: set<string>) {
    && (forall c :: c in claims ==> c.0 in owners)
    && (forall a :: a in owners ==> (a, owners[a]) in claims)
    && (forall a :: a in ambiguous ==> a in owners && exists j :: (a, j) in claims && j != owners[a])
    && (forall c :: c in claims && c.1 != owners[c.0] ==> c.0 in ambiguous)
  }

  lemma ScannedMore(claims: set<(string, Key)>, owners: map<string, Key>, ambiguous: set<string>, a: string, k: Key)
    requires Scanned(claims, owners, ambiguous)
    ensures a in owners && owners[a] != k ==> Scanned(claims + {(a, k)}, owners, ambiguous + {a})
    ensures !(a in owners && owners[a] != k) ==> Scanned(claims + {(a, k)}, owners[a := k], ambiguous)
  {
    var claims' := claims + {(a, k)};
    forall b | b in ambiguous ensures exists j :: (b, j) in claims' && j != owners[b] {
      var j :| (b, j) in claims && j != owners[b];
      assert (b, j) in claims';
    }
    if a in owners && owners[a] != k { assert (a, k) in claims'; }
  }

  /** Map each address to the interface that has it, leaving out the addresses
      more than one interface has. */
  method BuildAddressOwners(ifaces: seq<InterfaceFacts>, keys: map<nat, Key>) returns (owners: map<string, Key>)
    ensures forall a :: a in owners ==> SoleOwner(Claims(ifaces, keys), a, owners[a])
    ensures forall a, k :: SoleOwner(Claims(ifaces, keys), a, k) ==> a in owners
  {
    owners := map[];
    var ambiguous: set<string> := {};
    ghost var claims: set<(string, Key)> := {};
    for i := 0 to |ifaces|
      invariant claims == Claims(ifaces[..i], keys) && Scanned(claims, owners, ambiguous)
    {
      hide Scanned;
      var f := ifaces[i];
      assert ifaces[..i+1][..i] == ifaces[..i];
      if f.name !in keys { continue; }
      owners, ambiguous := ClaimAll(f.addresses, keys[f.name], owners, ambiguous, claims);
      claims := claims + OwnClaims(f.addresses, keys[f.name]);
    }
    assert ifaces[..|ifaces|] == ifaces;
    SoleOwners(claims, owners, ambiguous);
    owners := owners - ambiguous;
  }

  lemma SoleOwners(claims: set<(string, Key)>, owners: map<string, Key>, ambiguous: set<string>)
    requires Scanned(claims, owners, ambiguous)
    ensures forall a :: a in owners - ambiguous ==> SoleOwner(claims, a, owners[a])
    ensures forall a, k :: SoleOwner(claims, a, k) ==> a in owners - ambiguous
  {
    forall a, k | SoleOwner(claims, a, k) ensures a in owners - ambiguous {
      assert (a, k).0 in owners;
    }
    forall a | a in owners - ambiguous ensures SoleOwner(claims, a, owners[a]) {
      forall j | (a, j) in claims ensures j == owners[a] { assert (a, j).1 == j; }
    }
  }

  method ClaimAll(addresses: seq<string>, key: Key, owners0: map<string, Key>, ambiguous0: set<string>, ghost claims: set<(string, Key)>)
    returns (owners: map<string, Key>, ambiguous: set<string>)
    requires Scanned(claims, owners0, ambiguous0)
    ensures Scanned(claims + OwnClaims(addresses, key), owners, ambiguous)
  {
    hide Scanned, AddressOf;
    owners, ambiguous := owners0, ambiguous0;
    assert claims + {} == claims;
    for i := 0 to |addresses|
      invariant Scanned(claims + OwnClaims(addresses[..i], key), owners, ambiguous)
    {
      var addr := AddressOf(addresses[i]);
      ghost var sofar := claims + OwnClaims(addresses[..i], key);
      assert addresses[..i+1][..i] == addresses[..i];
      assert claims + OwnClaims(addresses[..i+1], key) == sofar + Claim(addresses[i], key);
      if addr == "" || IsWildcard(addr) {
        assert sofar + Claim(addresses[i], key) == sofar;
        continue;
      }
      ScannedMore(sofar, owners, ambiguous, addr, key);
      if addr in owners && owners[addr] != key {
        ambiguous := ambiguous + {addr};
        continue;
      }
      owners := owners[addr := key];
    }
    assert addresses[..|addresses|] == addresses;
  }

  // ---- the whole step ----

  /** Everything one cycle proposes, in the order it is proposed. */
  ghost function Proposals(f: Facts, x: Index, owners: map<string, Key>): seq<Relationship> {
    AllProcessEdges(f.procs, f.cgroups, x) + AllPodEdges(f.containers, x) + AllEndpointEdges(f.endpoints, x, owners)
  }

  /** Build the cycle's edges from the entities the table admitted. */
  method Relate(f: Facts, index: Index, tracked: set<Key>) returns (rs: RelationSet, ghost owners: map<string, Key>)
    ensures fresh(rs) && Closed(rs.byKey, tracked) && |rs.byKey| <= 6 * |tracked|
    ensures forall s :: s in rs.byKey ==>
      && s == (rs.byKey[s].from, rs.byKey[s].typ) && rs.byKey[s].from != rs.byKey[s].to
      && rs.byKey[s].from in tracked && rs.byKey[s].to in tracked
    ensures rs.byKey == AddAll(map[], Proposals(f, AdmittedIndex(tracked, index), owners))
    ensures forall a, k :: (a in owners && owners[a] == k) <==> SoleOwner(Claims(f.ifaces, AdmittedKeys(tracked, index.ifaces)), a, k)
  {
    rs := new RelationSet();
    var x := AdmittedIndex(tracked, index);
    AdmittedIn(tracked, index);
    hide AddAll, CountConflicts;
    var own := BuildAddressOwners(f.ifaces, x.ifaces);
    owners := own;
    assert x.ifaces == AdmittedKeys(tracked, index.ifaces);
    OwnersTracked(f.ifaces, x.ifaces, own, tracked);
    RelateProcesses(rs, f.procs, f.cgroups, x);
    RelateContainersToPods(rs, f.containers, x);
    RelateEndpoints(rs, f.endpoints, x, own);
    AllRelated(f, x, own, tracked);
    LinearBound(rs.byKey, tracked);
  }

  lemma AdmittedIn(tracked: set<Key>, index: Index)
    ensures IndexIn(AdmittedIndex(tracked, index), tracked)
  {
  }

  lemma OwnersTracked(ifaces: seq<InterfaceFacts>, keys: map<nat, Key>, owners: map<string, Key>, tracked: set<Key>)
    requires keys.Values <= tracked && forall a :: a in owners ==> SoleOwner(Claims(ifaces, keys), a, owners[a])
    ensures owners.Values <= tracked
  {
    forall a | a in owners ensures owners[a] in tracked {
      ClaimsAt(ifaces, keys, a, owners[a]);
      var f :| f in ifaces && f.name in keys && keys[f.name] == owners[a] && HasAddress(f, a);
    }
  }

  lemma AllRelated(f: Facts, x: Index, owners: map<string, Key>, tracked: set<Key>)
    requires IndexIn(x, tracked) && owners.Values <= tracked
    ensures AddAll(AddAll(AddAll(map[], AllProcessEdges(f.procs, f.cgroups, x)), AllPodEdges(f.containers, x)), AllEndpointEdges(f.endpoints, x, owners))
         == AddAll(map[], Proposals(f, x, owners))
    ensures Closed(AddAll(map[], Proposals(f, x, owners)), tracked)
  {
    var a, b, c := AllProcessEdges(f.procs, f.cgroups, x), AllPodEdges(f.containers, x), AllEndpointEdges(f.endpoints, x, owners);
    AddAllJoin(map[], a, b);
    AddAllJoin(map[], a + b, c);
    ProcessEndsTracked(f.procs, f.cgroups, x, tracked);
    PodEndsTracked(f.containers, x, tracked);
    EndpointEndsTracked(f.endpoints, x, owners, tracked);
    hide AllProcessEdges, AllPodEdges, AllEndpointEdges, AddAll, IndexIn;
    AddAllClosed(map[], a + b + c, tracked);
  }

  /** An address is what stands before the last slash, and all of a text without one. */
  lemma AddressBeforeSlash(a: string, prefix: string)
    requires '/' !in prefix
    ensures AddressOf(a + "/" + prefix) == a
    ensures '/' !in a ==> AddressOf(a) == a
  {
    var s := a + "/" + prefix;
    assert s[|a|] == '/';
    assert forall k :: |a| < k < |s| ==> s[k] in prefix;
    assert s[..|a|] == a;
  }

  /** No interface owns the wildcard addresses. */
  lemma WildcardsHaveNoOwner(ifaces: seq<InterfaceFacts>, keys: map<nat, Key>, a: string, k: Key)
    requires (a, k) in Claims(ifaces, keys)
    ensures a != "" && a != "0.0.0.0" && a != "::"
  {
    ClaimsAt(ifaces, keys, a, k);
  }

  // ---- what an edge says, from the facts ----

  /** The process of `f` is at the tail of the edge: its parent, its service or its
      container is at the head. */
  ghost predicate ProcessProves(f: ProcessFacts, cgroups: map<Pid, CgroupEvidence>, x: Index, r: Relationship) {
    && f.pid in x.procs && r.from == x.procs[f.pid]
    && (|| (r.typ == ParentProcess && f.ppid in x.procs && r.to == x.procs[f.ppid] && r.evidence == Ppid && !r.main)
        || (r.typ == RunsService && f.pid in x.mainPids && r.to == x.mainPids[f.pid] && r.evidence == ServiceManager && r.main)
        || (r.typ == RunsService && f.pid !in x.mainPids && f.pid in cgroups && cgroups[f.pid].unit != 0
            && cgroups[f.pid].unit in x.services && r.to == x.services[cgroups[f.pid].unit] && r.evidence == CgroupUnit && !r.main)
        || (r.typ == RunsInContainer && f.pid in cgroups && cgroups[f.pid].containerID != 0
            && cgroups[f.pid].containerID in x.containers && r.to == x.containers[cgroups[f.pid].containerID]
            && r.evidence == CgroupContainer && !r.main))
  }

  /** The container is at the tail, its pod at the head. */
  ghost predicate ContainerProves(c: ContainerFacts, x: Index, r: Relationship) {
    && r.typ == ContainerInPod && c.podUID != 0 && c.id in x.containers && c.podUID in x.pods
    && r.from == x.containers[c.id] && r.to == x.pods[c.podUID] && r.evidence == CgroupPod && !r.main
  }

  /** The endpoint is at the tail, its owner or its interface at the head. */
  ghost predicate EndpointProves(e: EndpointFacts, x: Index, owners: map<string, Key>, r: Relationship) {
    && e.name in x.endpoints && r.from == x.endpoints[e.name] && !r.main
    && (|| (r.typ == EndpointOwnedBy && e.hasOwner && e.owner in x.procs && r.to == x.procs[e.owner]
            && r.evidence == if e.inode == 0 then SocketTable else SocketInode)
        || (r.typ == EndpointBoundTo && e.name.address in owners && r.to == owners[e.name.address] && r.evidence == InterfaceAddress))
  }

  lemma {:induction false} ProcessEdgesAreProved(fs: seq<ProcessFacts>, cgroups: map<Pid, CgroupEvidence>, x: Index, r: Relationship)
    ensures r in AllProcessEdges(fs, cgroups, x) <==> exists f :: f in fs && ProcessProves(f, cgroups, x, r)
  {
    if fs != [] {
      var rest, f := fs[..|fs|-1], fs[|fs|-1];
      ProcessEdgesAreProved(rest, cgroups, x, r);
      OneProcessProves(f, cgroups, x, r);
      assert fs == rest + [f];
      hide ProcessEdges, ProcessProves;
    }
  }

  lemma OneProcessProves(f: ProcessFacts, cgroups: map<Pid, CgroupEvidence>, x: Index, r: Relationship)
    ensures r in ProcessEdges(f, cgroups, x) <==> ProcessProves(f, cgroups, x, r)
  {
    assert r in ParentEdge(f, x) <==> ProcessProves(f, cgroups, x, r) && r.typ == ParentProcess;
    assert r in ServiceEdge(f, cgroups, x) <==> ProcessProves(f, cgroups, x, r) && r.typ == RunsService;
    assert r in ContainerEdge(f, cgroups, x) <==> ProcessProves(f, cgroups, x, r) && r.typ == RunsInContainer;
  }

  lemma {:induction false} PodEdgesAreProved(cs: seq<ContainerFacts>, x: Index, r: Relationship)
    ensures r in AllPodEdges(cs, x) <==> exists c :: c in cs && ContainerProves(c, x, r)
  {
    hide PodEdge, ContainerProves;
    if cs != [] {
      var rest, c := cs[..|cs|-1], cs[|cs|-1];
      PodEdgesAreProved(rest, x, r);
      OnePodProves(c, x, r);
      assert cs == rest + [c];
    }
  }

  lemma OnePodProves(c: ContainerFacts, x: Index, r: Relationship)
    ensures r in PodEdge(c, x) <==> ContainerProves(c, x, r)
  {
  }

  lemma {:induction false} EndpointEdgesAreProved(es: seq<EndpointFacts>, x: Index, owners: map<string, Key>, r: Relationship)
    ensures r in AllEndpointEdges(es, x, owners) <==> exists e :: e in es && EndpointProves(e, x, owners, r)
  {
    hide OwnerEdge, BoundEdge, EndpointProves;
    if es != [] {
      var rest, e := es[..|es|-1], es[|es|-1];
      EndpointEdgesAreProved(rest, x, owners, r);
      OneEndpointProves(e, x, owners, r);
      assert es == rest + [e];
    }
  }

  lemma OneEndpointProves(e: EndpointFacts, x: Index, owners: map<string, Key>, r: Relationship)
    ensures r in OwnerEdge(e, x) + BoundEdge(e, x, owners) <==> EndpointProves(e, x, owners, r)
  {
  }

  /** An index of admitted entities is the whole index, less what is not tracked. */
  lemma AdmittedExactly<K>(tracked: set<Key>, m: map<K, Key>, k: K)
    ensures k in AdmittedKeys(tracked, m) <==> k in m && m[k] in tracked
    ensures k in AdmittedKeys(tracked, m) ==> AdmittedKeys(tracked, m)[k] == m[k]
  {
  }

  /** What a fact proves is kept, or an earlier proof for the same source and type
      is: nothing that joins two different named entities is lost. */
  lemma ProvedIsKept(f: Facts, x: Index, owners: map<string, Key>, r: Relationship)
    requires r.from != 0 && r.to != 0 && r.from != r.to
    requires (exists p :: p in f.procs && ProcessProves(p, f.cgroups, x, r))
      || (exists c :: c in f.containers && ContainerProves(c, x, r))
      || (exists e :: e in f.endpoints && EndpointProves(e, x, owners, r))
    ensures (r.from, r.typ) in AddAll(map[], Proposals(f, x, owners))
  {
    hide AddAll, AllProcessEdges, AllPodEdges, AllEndpointEdges, ProcessProves, ContainerProves, EndpointProves;
    ProcessEdgesAreProved(f.procs, f.cgroups, x, r);
    PodEdgesAreProved(f.containers, x, r);
    EndpointEdgesAreProved(f.endpoints, x, owners, r);
    var rs := Proposals(f, x, owners);
    assert r in rs;
    var i: nat :| i < |rs| && rs[i] == r;
    FirstWriterWins(rs, (r.from, r.typ));
    if forall j: nat :: !FirstFor(rs, (r.from, r.typ), j) {
      NoneBefore(rs, (r.from, r.typ), |rs|);
      assert false;
    }
  }

  /** Every edge the cycle keeps is proved by one of its facts, tail and head. */
  lemma EdgesAreProved(f: Facts, x: Index, owners: map<string, Key>, slot: Slot)
    requires slot in AddAll(map[], Proposals(f, x, owners))
    ensures var r := AddAll(map[], Proposals(f, x, owners))[slot];
      || (exists p :: p in f.procs && ProcessProves(p, f.cgroups, x, r))
      || (exists c :: c in f.containers && ContainerProves(c, x, r))
      || (exists e :: e in f.endpoints && EndpointProves(e, x, owners, r))
  {
    hide AddAll, AllProcessEdges, AllPodEdges, AllEndpointEdges, ProcessProves, ContainerProves, EndpointProves;
    var rs := Proposals(f, x, owners);
    FirstWriterWins(rs, slot);
    var i: nat :| FirstFor(rs, slot, i);
    assert AddAll(map[], rs)[slot] == rs[i] && rs[i] in rs;
    ProcessEdgesAreProved(f.procs, f.cgroups, x, rs[i]);
    PodEdgesAreProved(f.containers, x, rs[i]);
    EndpointEdgesAreProved(f.endpoints, x, owners, rs[i]);
  }
}
