/** The group servicer: creation reserves resources, installs table entries and records an undo log;
    destruction runs the log backwards. */
module Controller {
  import opened Options
  import opened Powers
  import opened Bitmaps
  import opened Segments
  import opened Groups
  import opened GroupInvariant

  // ---- States ----------------------------------------------------------------------------------

  ghost predicate Inv(kind: Kind, t: Topology, s: State, live: Live)
  {
    && !s.exited && |s.portCount| == |t.recirculation| && (kind != Broadcast ==> |t.recirculation| > 0)
    && IdsOk(s.freeGroup, live) && NodesOk(s.freeNode, live) && MembersOk(kind, t, live)
    && MemoryOk(s.memseg, live) && PortsOk(s.portCount, live) && TablesOk(kind, t, s.tables, live)
  }

  /** The state after group g has been created with the resources it names. */
  function Admitted(kind: Kind, t: Topology, s: State, g: Group, index: nat): State
    requires WellFormed(kind, t, g) && s.freeGroup != [] && |g.nodes| <= |s.freeNode|
    requires g.port.Some? ==> index < |s.memseg| && g.port.value < |s.portCount|
  {
    State(s.freeGroup[1..], s.freeNode[|g.nodes|..],
          if g.port.Some? then s.portCount[g.port.value := s.portCount[g.port.value] + 1] else s.portCount,
          if g.port.Some? then Allocated(s.memseg, index, g.range.lo, g.range.hi) else s.memseg,
          AddAll(s.tables, Installs(kind, t, g)), s.exited)
  }

  /** g takes the next free identifier and nodes, the first fit and a port, for members nobody else uses. */
  ghost predicate Admissible(kind: Kind, t: Topology, s: State, live: Live, g: Group, index: nat)
  {
    && WellFormed(kind, t, g) && DistinctMembers(g)
    && (forall id, ip, qpn :: id in live && Uses(live[id], ip, qpn) ==> !Uses(g, ip, qpn))
    && s.freeGroup != [] && g.id == s.freeGroup[0]
    && |g.nodes| <= |s.freeNode| && g.nodes == s.freeNode[..|g.nodes|]
    && (g.port.Some? ==> g.port.value < |s.portCount|)
    && (g.port.Some? ==> IsFirstFit(s.memseg, g.range.hi - g.range.lo, At(index, g.range.lo)))
  }

  /** `after` is `s` with g created. */
  ghost predicate Admission(kind: Kind, t: Topology, s: State, live: Live, g: Group, after: State)
  {
    exists index :: Admissible(kind, t, s, live, g, index) && after == Admitted(kind, t, s, g, index)
  }

  /** The parts of the invariant that do not mention tables. */
  lemma AdmitResources(kind: Kind, t: Topology, s: State, live: Live, g: Group, index: nat)
    requires Inv(kind, t, s, live) && Admissible(kind, t, s, live, g, index)
    ensures g.id !in live
    ensures var (a, l) := (Admitted(kind, t, s, g, index), live[g.id := g]);
            && IdsOk(a.freeGroup, l) && NodesOk(a.freeNode, l) && MembersOk(kind, t, l)
            && MemoryOk(a.memseg, l) && PortsOk(a.portCount, l)
  {
    IdsAdd(s.freeGroup, live, g);
    NodesAdd(s.freeNode, live, g, |g.nodes|);
    MembersAdd(kind, t, live, g);
    PortsAdd(s.portCount, live, g);
    if g.port.Some? {
      MemoryAdd(s.memseg, live, g, At(index, g.range.lo));
    } else {
      MemoryAddNone(s.memseg, live, g);
    }
  }

  lemma AdmitFresh(kind: Kind, t: Topology, s: State, live: Live, g: Group, index: nat)
    requires Inv(kind, t, s, live) && Admissible(kind, t, s, live, g, index)
    ensures Fresh(s.tables, Installs(kind, t, g))
    ensures forall k :: Owns(kind, g, |g.members|, k) ==> k !in s.tables
    ensures Distinct(g.nodes)
  {
    AdmitResources(kind, t, s, live, g, index);
    var l := live[g.id := g];
    assert l[g.id] == g;
    InstallsDistinct(kind, t, g);
    forall k | Owns(kind, g, |g.members|, k) ensures k !in s.tables {
      FreshKeys(kind, t, s.tables, live, s.freeGroup[1..], s.freeNode[|g.nodes|..], g, k);
    }
    forall k ensures HasKey(Installs(kind, t, g), k) <==> Owns(kind, g, |g.members|, k) {
      InstallsExactly(kind, t, g, k);
    }
  }

  /** Creation keeps the invariant. */
  lemma {:induction false} AdmitKeeps(kind: Kind, t: Topology, s: State, live: Live, g: Group, index: nat)
    requires Inv(kind, t, s, live) && Admissible(kind, t, s, live, g, index)
    ensures g.id !in live && Inv(kind, t, Admitted(kind, t, s, g, index), live[g.id := g])
  {
    AdmitResources(kind, t, s, live, g, index);
    AdmitFresh(kind, t, s, live, g, index);
    TablesAdd(kind, t, s.tables, live, g);
  }

  /** The undo log can be run: the range is not free and the port exists. */
  lemma Undoable(kind: Kind, t: Topology, s: State, live: Live, id: nat)
    requires Inv(kind, t, s, live) && id in live
    ensures var g := live[id];
            && WellFormed(kind, t, g)
            && (g.port.Some? ==> g.port.value < |s.portCount| && !Rejected(s.memseg, g.range.lo, g.range.hi))
  {
    if live[id].port.Some? { MemoryReleasable(s.memseg, live, id); }
  }

  lemma UndoMemory(kind: Kind, t: Topology, s: State, live: Live, id: nat, after: State)
    requires Inv(kind, t, s, live) && id in live && WellFormed(kind, t, live[id])
    requires live[id].port.Some? ==> live[id].port.value < |s.portCount|
    requires Undone(kind, s, live[id], after)
    ensures MemoryOk(after.memseg, live - {id})
  {
    hide IdsOk, NodesOk, MembersOk, MemoryOk, PortsOk, TablesOk, Owns, Freed, Rejected, Multiple, IsPower2;
    var g := live[id];
    if g.port.Some? {
      AlignedLo(g.range.lo, g.range.hi - g.range.lo);
      MemoryRemove(s.memseg, live, id);
    } else {
      MemoryRemoveNone(s.memseg, live, id);
    }
  }

  /** Destruction keeps the invariant. */
  lemma {:induction false} UndoKeeps(kind: Kind, t: Topology, s: State, live: Live, id: nat, after: State)
    requires Inv(kind, t, s, live) && id in live && WellFormed(kind, t, live[id])
    requires live[id].port.Some? ==> live[id].port.value < |s.portCount|
    requires Undone(kind, s, live[id], after)
    ensures Inv(kind, t, after, live - {id})
  {
    assert live[id].id == id;
    hide IdsOk, NodesOk, MembersOk, MemoryOk, PortsOk, TablesOk, WellFormed, Owns, Freed;
    IdsRemove(s.freeGroup, live, id);
    NodesRemove(s.freeNode, live, id);
    PortsRemove(s.portCount, live, id);
    UndoMemory(kind, t, s, live, id, after);
    TablesRemove(kind, t, s.tables, live, s.freeGroup, s.freeNode, id, after.tables);
  }

  /** Undoing a creation at once restores the tables and, up to order, all resources. */
  lemma {:induction false} UndoAdmitted(kind: Kind, t: Topology, s: State, live: Live, g: Group, index: nat,
                                        after: State)
    requires Inv(kind, t, s, live) && Admissible(kind, t, s, live, g, index)
    requires Undone(kind, Admitted(kind, t, s, g, index), g, after)
    ensures after.tables == s.tables && after.portCount == s.portCount
    ensures multiset(after.freeGroup) == multiset(s.freeGroup) && multiset(after.freeNode) == multiset(s.freeNode)
    ensures forall x: nat :: FreeAt(after.memseg, x) <==> FreeAt(s.memseg, x)
  {
    hide *;
    AdmitFresh(kind, t, s, live, g, index);
    ListsRestored(kind, t, s, live, g, index, after);
    TablesRestored(kind, t, s, live, g, index, after);
    MemoryRestored(kind, t, s, live, g, index, after);
  }

  lemma ListsRestored(kind: Kind, t: Topology, s: State, live: Live, g: Group, index: nat, after: State)
    requires Admissible(kind, t, s, live, g, index) && Undone(kind, Admitted(kind, t, s, g, index), g, after)
    ensures multiset(after.freeGroup) == multiset(s.freeGroup) && multiset(after.freeNode) == multiset(s.freeNode)
    ensures after.portCount == s.portCount
  {
    hide Owns, Installs, AddAll, Allocated, Freed, IsFirstFit, WellFormed, DistinctMembers, Uses;
    Rotated(s.freeGroup, [g.id]);
    Rotated(s.freeNode, g.nodes);
  }

  lemma Rotated(xs: seq<nat>, front: seq<nat>)
    requires |front| <= |xs| && xs[..|front|] == front
    ensures multiset(xs[|front|..] + front) == multiset(xs)
  {
    assert xs == front + xs[|front|..];
  }

  lemma TablesRestored(kind: Kind, t: Topology, s: State, live: Live, g: Group, index: nat, after: State)
    requires Admissible(kind, t, s, live, g, index) && Undone(kind, Admitted(kind, t, s, g, index), g, after)
    requires forall k :: Owns(kind, g, |g.members|, k) ==> k !in s.tables
    ensures after.tables == s.tables
  {
    hide Owns, Installs, AddAll, Allocated, Freed, ValidSize, Multiple, HasKey, IsFirstFit, Uses;
    forall k
      ensures k in after.tables <==> k in s.tables
      ensures k in after.tables ==> after.tables[k] == s.tables[k]
    {
      AddAllKeys(s.tables, Installs(kind, t, g), k);
      InstallsExactly(kind, t, g, k);
    }
  }

  lemma MemoryRestored(kind: Kind, t: Topology, s: State, live: Live, g: Group, index: nat, after: State)
    requires Inv(kind, t, s, live) && Admissible(kind, t, s, live, g, index)
    requires Undone(kind, Admitted(kind, t, s, g, index), g, after)
    ensures forall x: nat :: FreeAt(after.memseg, x) <==> FreeAt(s.memseg, x)
  {
    hide IdsOk, NodesOk, MembersOk, PortsOk, TablesOk, Owns, Installs, AddAll, Allocated, Freed, FreeAt, Multiple, Uses;
    if g.port.Some? { RangeRestored(s.memseg, index, g.range.lo, g.range.hi); }
  }

  lemma RangeRestored(ms: seq<Segment>, index: nat, lo: nat, hi: nat)
    requires Ordered(ms) && index < |ms| && ms[index].lo <= lo < hi <= ms[index].hi
    ensures forall x: nat :: FreeAt(Freed(Allocated(ms, index, lo, hi), lo, hi), x) <==> FreeAt(ms, x)
  {
    AllocatedOrdered(ms, index, lo, hi);
    assert !Rejected(Allocated(ms, index, lo, hi), lo, hi) by {
      var a := Allocated(ms, index, lo, hi);
      RejectedIff(a, lo, hi);
      forall i | 0 <= i < |a| ensures !a[i].Meets(Segment(lo, hi)) {
        var x := if a[i].lo < lo then lo else a[i].lo;
        AllocatedSet(ms, index, lo, hi, x);
        if a[i].Meets(Segment(lo, hi)) { assert a[i].Has(x); }
      }
    }
    forall x: nat ensures FreeAt(Freed(Allocated(ms, index, lo, hi), lo, hi), x) <==> FreeAt(ms, x) {
      AllocatedSet(ms, index, lo, hi, x);
      FreedSet(Allocated(ms, index, lo, hi), lo, hi, x);
      if lo <= x < hi { assert ms[index].Has(x); }
    }
  }

  // ---- The servicer ----------------------------------------------------------------------------

  datatype Reply = Raised | NoResource | Created(id: nat, members: seq<Member>)

  /** The first index of a least element. */
  function FirstMin(s: seq<int>): (r: nat)
    requires s != []
    ensures r < |s| && (forall j :: 0 <= j < |s| ==> s[r] <= s[j]) && (forall j :: 0 <= j < r ==> s[r] < s[j])
  {
    if |s| == 1 then 0
    else
      var m := FirstMin(s[..|s| - 1]);
      if s[|s| - 1] < s[m] then |s| - 1 else m
  }

  /** The members are known, few enough for a bitmap, and in no live group. */
  ghost predicate Accepts(kind: Kind, t: Topology, live: Live, members: seq<Member>, root: nat)
  {
    && |members| <= WIDTH && (kind != Allreduce ==> root < |members|)
    && (forall i :: 0 <= i < |members| ==> members[i].ip in t.ports)
    && (forall i, j :: 0 <= i < j < |members| ==> (members[i].ip, members[i].qpn) != (members[j].ip, members[j].qpn))
    && (forall i, id :: 0 <= i < |members| && id in live ==> !Uses(live[id], members[i].ip, members[i].qpn))
  }

  /** What a group made from acceptable members and free resources is. */
  lemma IsAdmissible(kind: Kind, t: Topology, s: State, live: Live, g: Group, fit: Fit)
    requires Accepts(kind, t, live, g.members, g.root) && s.freeGroup != [] && g.id == s.freeGroup[0]
    requires |g.members| == |g.nodes| <= |s.freeNode| && g.nodes == s.freeNode[..|g.nodes|] && fit.At?
    requires kind == Broadcast ==> g.range == Segment(0, 0) && g.port == None
    requires kind != Broadcast ==>
               && g.port.Some? && g.port.value < |t.recirculation| == |s.portCount|
               && fit.addr == g.range.lo <= g.range.hi
               && IsFirstFit(s.memseg, g.range.hi - g.range.lo, fit)
    ensures Admissible(kind, t, s, live, g, fit.index)
  {
    forall id, ip, qpn | id in live && Uses(live[id], ip, qpn) ensures !Uses(g, ip, qpn) {}
  }

  /** Exactly the live groups have a log, and it is theirs. */
  ghost predicate UndoOk(kind: Kind, t: Topology, undo: map<nat, seq<Command>>, live: Live)
    requires MembersOk(kind, t, live)
  {
    undo.Keys == live.Keys && forall id :: id in live ==> undo[id] == UndoLog(kind, t, live[id])
  }

  /** Memory is released by the first command only, which runs last. */
  ghost predicate FreesLast(log: seq<Command>)
  {
    forall k :: 0 <= k < |log| && log[k].FreeSegment? ==> k == 0 && log[k].lo < log[k].hi
  }

  lemma LogFreesLast(kind: Kind, t: Topology, g: Group)
    requires WellFormed(kind, t, g)
    ensures FreesLast(UndoLog(kind, t, g))
  {
    var r, log := Resources(g), UndoLog(kind, t, g);
    forall k | |r| <= k < |log| ensures log[k].Delete? {
      assert log[k] == Deletes(Installs(kind, t, g))[k - |r|];
    }
  }

  /** The installs have distinct keys, none of them in use. */
  ghost predicate Fresh(before: map<Key, Entry>, all: seq<Install>)
  {
    DistinctKeys(all) && forall k :: HasKey(all, k) ==> k !in before
  }

  lemma OwnAt(kind: Kind, t: Topology, g: Group, i: nat)
    requires WellFormed(kind, t, g) && i < |g.members|
    ensures i < |g.nodes| && g.members[i].ip in t.ports && (kind != Broadcast ==> g.range.lo + MTU_SIZE <= g.range.hi)
    ensures var (own, m) := (Own(kind, t, g, i), g.members[i]);
            && |own| == (if kind == Reduce && i == g.root then 3 else 4)
            && own[0] == (MetadataKey(m.ip, m.qpn), MetadataOf(kind, g, i))
            && own[1] == (RestoreKey(g.id, i, true), Restore(m.ip, m.qpn, Some(m.rkey)))
            && own[2] == (RestoreKey(g.id, i, false), Restore(m.ip, m.qpn, None))
            && (|own| == 4 ==> own[3] == (NodeKey(g.nodes[i]), Replica(i, t.ports[m.ip])))
            && Deletes(own) == [Delete(own[0].0), Delete(own[1].0), Delete(own[2].0)] +
                               (if |own| == 4 then [Delete(own[3].0)] else [])
  {
  }

  lemma DeletesJoin(l: seq<Install>, i: nat, j: nat)
    requires i <= j <= |l|
    ensures Deletes(l[..j]) == Deletes(l[..i]) + Deletes(l[i..j])
  {
  }

  lemma DeletesOne(p: Install)
    ensures Deletes([p]) == [Delete(p.0)]
  {
  }

  lemma TargetsDefined(kind: Kind, t: Topology, g: Group)
    requires WellFormed(kind, t, g)
    ensures kind == Reduce ==> g.root < |g.nodes|
  {
  }

  /** A list has one first fit. */
  lemma FitIsUnique(ms: seq<Segment>, size: nat, f: Fit)
    requires IsFirstFit(ms, size, f)
    ensures f.InvalidSize? <==> !ValidSize(size)
    ensures f.NoFit? <==> IsFirstFit(ms, size, NoFit)
  {
  }

  /** What a creation answers and does. An invalid size raises before anything is changed; a lack of
      resources changes nothing; otherwise the group gets the first fit and the least used port, and its
      members are told to send to the switch. */
  ghost predicate Answer(kind: Kind, t: Topology, switchIp: nat, members: seq<Member>, size: nat, root: nat,
                         s: State, live: Live, reply: Reply, s': State, live': Live)
  {
    var raises := kind != Broadcast && !ValidSize(size);
    var noFit := kind != Broadcast && IsFirstFit(s.memseg, size, NoFit);
    var lacks := |s.freeGroup| < 1 || |s.freeNode| < |members| || noFit;
    match reply
    case Raised => raises && s' == s && live' == live
    case NoResource => !raises && lacks && s' == s && live' == live
    case Created(id, addresses) =>
      && !raises && !lacks
      && id !in live && id in live' && live' == live[id := live'[id]]
      && live'[id].members == members && live'[id].root == root
      && Admission(kind, t, s, live, live'[id], s')
      && (kind != Broadcast ==>
            && live'[id].range.hi == live'[id].range.lo + size
            && s.portCount != [] && live'[id].port == Some(FirstMin(s.portCount)))
      && addresses == seq(|members|, i requires 0 <= i < |members| => members[i].(ip := switchIp))
  }

  class Servicer {
    const kind: Kind
    const topology: Topology
    const switchIp: nat
    var freeGroup: seq<nat>
    var freeNode: seq<nat>
    var portCount: seq<int>
    var memseg: seq<Segment>
    var tables: map<Key, Entry>
    var undo: map<nat, seq<Command>>
    var exited: bool
    /** The version and bitmap of each aggregation slot; the data plane changes them between calls. */
    var registers: seq<(nat, nat)>
    ghost var live: Live

    function Snapshot(): State
      reads this
    {
      State(freeGroup, freeNode, portCount, memseg, tables, exited)
    }

    ghost predicate Valid()
      reads this
    {
      && Inv(kind, topology, Snapshot(), live)
      && UndoOk(kind, topology, undo, live)
      && |registers| == SWITCH_MEM_SIZE / MTU_SIZE
    }

    constructor (kind: Kind, topology: Topology, switchIp: nat)
      requires kind != Broadcast ==> |topology.recirculation| > 0
      ensures Valid() && live == map[] && tables == map[] && memseg == [Segment(0, SWITCH_MEM_SIZE)]
      ensures this.kind == kind && this.topology == topology && |freeGroup| == MAX_GROUP_NUM - 1
      ensures |freeNode| == MAX_QP_NUM - 1
    {
      this.kind, this.topology, this.switchIp := kind, topology, switchIp;
      freeGroup := seq(MAX_GROUP_NUM - 1, i => i + 1);
      freeNode := seq(MAX_QP_NUM - 1, i => i + 1);
      portCount := seq(|topology.recirculation|, _ => 0);
      memseg, tables, undo, exited := [Segment(0, SWITCH_MEM_SIZE)], map[], map[], false;
      registers := seq(SWITCH_MEM_SIZE / MTU_SIZE, _ => (0, 0));
      live := map[];
      new;
      forall x: nat ensures FreeAt(memseg, x) <==> x < SWITCH_MEM_SIZE {
        Single(Segment(0, SWITCH_MEM_SIZE), x);
      }
      forall x: nat | 1 <= x < MAX_QP_NUM ensures x in freeGroup && x in freeNode {
        assert freeGroup[x - 1] == x && freeNode[x - 1] == x;
      }
    }

    ghost predicate Acceptable(members: seq<Member>, root: nat)
      reads this
    {
      Accepts(kind, topology, live, members, root)
    }

    /** One table entry. The switch refuses a key that is already present. */
    method Install(key: Key, entry: Entry, log: seq<Command>, ghost before: map<Key, Entry>, ghost all: seq<Install>,
                   ghost done: nat)
      returns (after: seq<Command>)
      requires done < |all| && all[done] == (key, entry) && Fresh(before, all) && tables == AddAll(before, all[..done])
      modifies this`tables
      ensures key !in old(tables) && tables == AddAll(before, all[..done + 1]) && after == log + [Delete(key)]
    {
      assert key !in tables by {
        AddAllKeys(before, all[..done], key);
        assert all[done].0 == key;
      }
      assert all[..done + 1] == all[..done] + [all[done]];
      tables := tables[key := entry];
      after := log + [Delete(key)];
    }

    method InstallMember(g: Group, i: nat, log: seq<Command>, ghost before: map<Key, Entry>, ghost all: seq<Install>,
                         ghost done: nat)
      returns (after: seq<Command>)
      requires WellFormed(kind, topology, g) && i < |g.members| && Fresh(before, all)
      requires done + |Own(kind, topology, g, i)| <= |all|
      requires all[done..done + |Own(kind, topology, g, i)|] == Own(kind, topology, g, i)
      requires tables == AddAll(before, all[..done])
      modifies this`tables
      ensures tables == AddAll(before, all[..done + |Own(kind, topology, g, i)|])
      ensures after == log + Deletes(Own(kind, topology, g, i))
    {
      hide *;
      OwnAt(kind, topology, g, i);
      var m := g.members[i];
      ghost var own := Own(kind, topology, g, i);
      assert forall j :: 0 <= j < |own| ==> own[j] == all[done + j];
      after := Install(MetadataKey(m.ip, m.qpn), MetadataOf(kind, g, i), log, before, all, done);
      after := Install(RestoreKey(g.id, i, true), Restore(m.ip, m.qpn, Some(m.rkey)), after, before, all, done + 1);
      after := Install(RestoreKey(g.id, i, false), Restore(m.ip, m.qpn, None), after, before, all, done + 2);
      if !(kind == Reduce && i == g.root) {
        after := Install(NodeKey(g.nodes[i]), Replica(i, topology.ports[m.ip]), after, before, all, done + 3);
      }
    }

    method InstallHeader(g: Group, log: seq<Command>, ghost before: map<Key, Entry>, ghost all: seq<Install>)
      returns (after: seq<Command>)
      requires WellFormed(kind, topology, g) && Fresh(before, all) && tables == before
      requires var h := Header(kind, topology, g); |h| <= |all| && forall j :: 0 <= j < |h| ==> all[j] == h[j]
      modifies this`tables
      ensures tables == AddAll(before, all[..|Header(kind, topology, g)|])
      ensures after == log + Deletes(Header(kind, topology, g))
    {
      hide Fresh, ValidSize, Multiple;
      ghost var done := 0;
      after := log;
      assert all[..0] == [];
      if kind != Broadcast {
        after := Install(RecirculateKey(g.id), Forward(topology.recirculation[g.port.value]), after, before, all, 0);
        done := 1;
      }
      if kind != Allreduce {
        after := Install(RootUnicastKey(g.id), Forward(topology.ports[g.members[g.root].ip]), after, before, all, done);
      }
    }

    /** All entries of a group, with the log that deletes them. */
    method InstallEntries(g: Group, log: seq<Command>) returns (after: seq<Command>)
      requires WellFormed(kind, topology, g) && Fresh(tables, Installs(kind, topology, g)) && log == Resources(g)
      modifies this`tables
      ensures tables == AddAll(old(tables), Installs(kind, topology, g))
      ensures after == UndoLog(kind, topology, g)
    {
      hide AddAll, Resources, Fresh, Header, Members, Own, Installs, Deletes, WellFormed;
      ghost var before, all, header := tables, Installs(kind, topology, g), Header(kind, topology, g);
      InstallsShape(kind, topology, g);
      after := InstallHeader(g, log, before, all);
      ghost var done := |header|;
      assert all[..done] == header;
      for i := 0 to |g.members|
        invariant done == |header + Members(kind, topology, g, i)| < |all|
        invariant tables == AddAll(before, all[..done])
        invariant after == Resources(g) + Deletes(all[..done])
      {
        Block(kind, topology, g, i);
        DeletesJoin(all, done, done + |Own(kind, topology, g, i)|);
        after := InstallMember(g, i, after, before, all, done);
        done := done + |Own(kind, topology, g, i)|;
      }
      TargetsDefined(kind, topology, g);
      after := Install(MulticastKey(g.id), Replicas(Targets(kind, g)), after, before, all, done);
      DeletesJoin(all, done, done + 1);
      assert all[done..done + 1] == [all[done]] && all[..done + 1] == all;
      DeletesOne(all[done]);
    }

    /** Reset the slots of a new group. */
    method ClearSlots(lo: nat, hi: nat)
      requires lo <= hi <= |registers|
      modifies this`registers
      ensures |registers| == old(|registers|)
      ensures forall i :: 0 <= i < |registers| ==> registers[i] == if lo <= i < hi then (0, 0) else old(registers[i])
    {
      for i := lo to hi
        invariant |registers| == old(|registers|)
        invariant forall j :: 0 <= j < |registers| ==> registers[j] == if lo <= j < i then (0, 0) else old(registers[j])
      {
        registers := registers[i := (0, 0)];
      }
    }

    /** Pick identifier, nodes, memory and port for a group and record how to give them back. */
    method Reserve(members: seq<Member>, root: nat, memorySize: nat, fit: Fit) returns (g: Group, log: seq<Command>)
      requires Valid() && Acceptable(members, root) && freeGroup != [] && |members| <= |freeNode|
      requires fit.At? && (kind != Broadcast ==> IsFirstFit(memseg, memorySize, fit))
      modifies this`freeGroup, this`freeNode, this`portCount, this`memseg
      ensures g.members == members && g.root == root
      ensures kind != Broadcast ==>
                g.range == Segment(fit.addr, fit.addr + memorySize) && g.port == Some(FirstMin(old(portCount)))
      ensures Admissible(kind, topology, old(Snapshot()), live, g, fit.index) && log == Resources(g)
      ensures Snapshot() == Admitted(kind, topology, old(Snapshot()), g, fit.index).(tables := tables)
    {
      hide IdsOk, NodesOk, MembersOk, MemoryOk, PortsOk, TablesOk, Multiple, AddAll, Installs, Allocated;
      var n, range, port := |members|, Segment(0, 0), None;
      log := [];
      if kind != Broadcast {
        range := Segment(fit.addr, fit.addr + memorySize);
        memseg := AllocSeg(memseg, fit.index, range.lo, range.hi);
        log := [FreeSegment(range.lo, range.hi)];
      }
      var id := freeGroup[0];
      freeGroup := freeGroup[1..];
      log := log + [ReturnGroup(id)];
      var nodes := freeNode[..n];
      freeNode := freeNode[n..];
      log := log + [ReturnNodes(nodes)];
      if kind != Broadcast {
        var p := FirstMin(portCount);
        port := Some(p);
        portCount := portCount[p := portCount[p] + 1];
        log := log + [DecrementPort(p)];
      }
      g := Group(id, members, root, nodes, range, port);
      IsAdmissible(kind, topology, old(Snapshot()), live, g, fit);
      hide Accepts, Admissible;
    }

    /** Create a group for which there are resources. */
    method Admit(members: seq<Member>, memorySize: nat, root: nat, fit: Fit) returns (g: Group)
      requires Valid() && Acceptable(members, root) && freeGroup != [] && |members| <= |freeNode|
      requires fit.At? && (kind != Broadcast ==> IsFirstFit(memseg, memorySize, fit))
      modifies this
      ensures Valid() && g.id !in old(live) && live == old(live)[g.id := g] && g.members == members && g.root == root
      ensures Admission(kind, topology, old(Snapshot()), old(live), g, Snapshot())
      ensures kind != Broadcast ==>
                g.range == Segment(fit.addr, fit.addr + memorySize) && g.port == Some(FirstMin(old(portCount)))
      ensures forall i: nat :: i < |registers| ==>
                registers[i] == if g.range.Has(i * MTU_SIZE) then (0, 0) else old(registers[i])
    {
      hide IdsOk, NodesOk, MembersOk, MemoryOk, PortsOk, TablesOk, Installs, AddAll, UndoLog, IsFirstFit, Acceptable;
      hide Allocated;
      ghost var s := Snapshot();
      var log;
      g, log := Reserve(members, root, memorySize, fit);
      AdmitFresh(kind, topology, s, live, g, fit.index);
      log := InstallEntries(g, log);
      AdmitKeeps(kind, topology, s, live, g, fit.index);
      live := live[g.id := g];
      undo := undo[g.id := log];
      SlotsInMemory(g);
      ClearSlots(g.range.lo / MTU_SIZE, g.range.hi / MTU_SIZE);
    }

    /** Create a group. */
    method CreateGroup(members: seq<Member>, memorySize: nat, root: nat) returns (reply: Reply)
      requires Valid() && Acceptable(members, root)
      modifies this
      ensures Valid()
      ensures Answer(kind, topology, switchIp, members, memorySize, root,
                     old(Snapshot()), old(live), reply, Snapshot(), live)
      ensures !reply.Created? ==> undo == old(undo) && registers == old(registers)
      ensures reply.Created? && reply.id in live ==> forall i: nat :: i < |registers| ==>
                registers[i] == if live[reply.id].range.Has(i * MTU_SIZE) then (0, 0) else old(registers[i])
    {
      hide Valid, Inv, Acceptable, Admission, IsFirstFit, ValidSize;
      var fit := At(0, 0);
      if kind != Broadcast {
        fit := FitSeg(memseg, memorySize);
        FitIsUnique(memseg, memorySize, fit);
        if fit.InvalidSize? { return Raised; }
      }
      if |freeGroup| < 1 || |freeNode| < |members| || fit.NoFit? { return NoResource; }
      var g := Admit(members, memorySize, root, fit);
      reply := Created(g.id, seq(|members|, i requires 0 <= i < |members| => members[i].(ip := switchIp)));
    }

    lemma SlotsInMemory(g: Group)
      requires WellFormed(kind, topology, g) && MemoryOk(memseg, live) && g.id in live && live[g.id] == g
      ensures g.range.lo <= g.range.hi <= SWITCH_MEM_SIZE
      ensures forall i: nat :: g.range.Has(i * MTU_SIZE) <==> g.range.lo / MTU_SIZE <= i < g.range.hi / MTU_SIZE
    {
      if g.range.lo < g.range.hi {
        AlignedLo(g.range.lo, g.range.hi - g.range.lo);
        assert g.range.Has(g.range.hi - 1);
        assert TakenAt(live, g.range.hi - 1);
      }
    }

    method Execute(c: Command)
      requires c.FreeSegment? ==> Ordered(memseg) && c.lo < c.hi
      modifies this`freeGroup, this`freeNode, this`portCount, this`memseg, this`tables, this`exited
      ensures Snapshot() == Run(old(Snapshot()), c)
    {
      match c
      case FreeSegment(lo, hi) =>
        var ok, ms := FreeSeg(memseg, lo, hi);
        if ok { memseg := ms; } else { exited := true; }
      case ReturnGroup(id) => freeGroup := freeGroup + [id];
      case ReturnNodes(nodes) => freeNode := freeNode + nodes;
      case DecrementPort(i) => if i < |portCount| { portCount := portCount[i := portCount[i] - 1]; }
      case Delete(key) => tables := tables - {key};
    }

    /** Run a log from its last command to its first. */
    method Unwind(log: seq<Command>)
      requires Ordered(memseg) && FreesLast(log)
      modifies this`freeGroup, this`freeNode, this`portCount, this`memseg, this`tables, this`exited
      ensures Snapshot() == RunBack(old(Snapshot()), log)
    {
      hide Ordered;
      var k := |log|;
      assert log[..k] == log;
      while k > 0
        invariant 0 <= k <= |log|
        invariant RunBack(Snapshot(), log[..k]) == RunBack(old(Snapshot()), log)
        invariant memseg == old(memseg) || k == 0
      {
        k := k - 1;
        assert log[..k + 1][..k] == log[..k] && log[..k + 1][k] == log[k];
        Execute(log[k]);
      }
    }

    /** Destroy a group: exactly its entries leave the tables, exactly its resources return, and the
        "Invalid free" exit is not taken. An unknown group changes nothing. */
    method DestroyGroup(id: nat)
      requires Valid()
      modifies this
      ensures Valid() && !exited && registers == old(registers)
      ensures id !in old(live) ==> Snapshot() == old(Snapshot()) && live == old(live) && undo == old(undo)
      ensures id in old(live) ==>
                && live == old(live) - {id}
                && |old(live)[id].members| == |old(live)[id].nodes|
                && (old(live)[id].port.Some? ==> old(live)[id].port.value < |old(portCount)|)
                && Undone(kind, old(Snapshot()), old(live)[id], Snapshot())
    {
      hide IdsOk, NodesOk, MembersOk, PortsOk, TablesOk, UndoLog, Undone, RunBack;
      hide Ordered, MtuAligned, FreeAt, TakenAt, Multiple, ValidSize;
      if id !in undo { return; }
      var log := undo[id];
      ghost var s, g := Snapshot(), live[id];
      Undoable(kind, topology, s, live, id);
      UndoExactly(kind, topology, g, s);
      LogFreesLast(kind, topology, g);
      Unwind(log);
      UndoKeeps(kind, topology, s, live, id, Snapshot());
      undo := undo - {id};
      live := live - {id};
    }

    /** A group created and destroyed at once leaves no trace but the order of the free lists. */
    method CreateAndDestroy(members: seq<Member>, memorySize: nat, root: nat)
      requires Valid() && Acceptable(members, root)
      modifies this
      ensures Valid() && live == old(live) && tables == old(tables) && portCount == old(portCount)
      ensures multiset(freeGroup) == multiset(old(freeGroup)) && multiset(freeNode) == multiset(old(freeNode))
      ensures forall x: nat :: FreeAt(memseg, x) <==> FreeAt(old(memseg), x)
    {
      hide IdsOk, NodesOk, MembersOk, MemoryOk, PortsOk, TablesOk, Installs, Admitted, UndoLog, Undone;
      ghost var s := Snapshot();
      ghost var l := live;
      var reply := CreateGroup(members, memorySize, root);
      if reply.Created? {
        ghost var g := live[reply.id];
        ghost var index :| Admissible(kind, topology, s, l, g, index) &&
                           Snapshot() == Admitted(kind, topology, s, g, index);
        DestroyGroup(reply.id);
        UndoAdmitted(kind, topology, s, l, g, index, Snapshot());
      }
    }
  }
}
