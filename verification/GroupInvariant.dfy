/** What every sequence of group creations and destructions keeps. */
module GroupInvariant {
  import opened Options
  import opened Powers
  import opened Segments
  import opened Groups

  type Live = map<nat, Group>

  const MAX_GROUP_NUM: nat := 256
  const MAX_QP_NUM: nat := 256

  /** Free and live identifiers are 1..255 without repetition. */
  ghost predicate IdsOk(free: seq<nat>, live: Live)
  {
    && Distinct(free)
    && (forall x :: x in free ==> 1 <= x < MAX_GROUP_NUM && x !in live)
    && (forall id :: id in live ==> 1 <= id < MAX_GROUP_NUM && live[id].id == id)
    && (forall x :: 1 <= x < MAX_GROUP_NUM ==> x in free || x in live)
  }

  ghost predicate UsedNode(live: Live, x: nat)
  {
    exists id :: id in live && x in live[id].nodes
  }

  /** Free nodes and the nodes of live groups are 1..255 without repetition. */
  ghost predicate NodesOk(free: seq<nat>, live: Live)
  {
    && Distinct(free)
    && (forall x: nat :: x in free ==> 1 <= x < MAX_QP_NUM && !UsedNode(live, x))
    && (forall x: nat :: UsedNode(live, x) ==> 1 <= x < MAX_QP_NUM)
    && (forall x: nat :: 1 <= x < MAX_QP_NUM ==> x in free || UsedNode(live, x))
    && (forall id :: id in live ==> Distinct(live[id].nodes))
    && (forall a, b, x :: a in live && b in live && x in live[a].nodes && x in live[b].nodes ==> a == b)
  }

  ghost predicate Uses(g: Group, ip: nat, qpn: nat)
  {
    exists i :: 0 <= i < |g.members| && g.members[i].ip == ip && g.members[i].qpn == qpn
  }

  /** Groups are well formed and share no member queue pair. */
  ghost predicate MembersOk(kind: Kind, t: Topology, live: Live)
  {
    && (forall id :: id in live ==> WellFormed(kind, t, live[id]) && DistinctMembers(live[id]))
    && (forall a, b, ip, qpn :: a in live && b in live && Uses(live[a], ip, qpn) && Uses(live[b], ip, qpn) ==> a == b)
  }

  ghost predicate TakenAt(live: Live, x: nat)
  {
    exists id :: id in live && live[id].range.Has(x)
  }

  /** Free segments and live ranges tile the switch memory. */
  ghost predicate MemoryOk(ms: seq<Segment>, live: Live)
  {
    && Ordered(ms) && MtuAligned(ms)
    && (forall x: nat :: x < SWITCH_MEM_SIZE <==> FreeAt(ms, x) || TakenAt(live, x))
    && (forall x: nat :: !(FreeAt(ms, x) && TakenAt(live, x)))
    && (forall a, b, x: nat :: a in live && b in live && live[a].range.Has(x) && live[b].range.Has(x) ==> a == b)
  }

  function OnPort(live: Live, p: nat): set<nat>
  {
    set id | id in live && live[id].port == Some(p)
  }

  ghost predicate PortsOk(count: seq<int>, live: Live)
  {
    forall p :: 0 <= p < |count| ==> count[p] == |OnPort(live, p)|
  }

  ghost predicate Installed(kind: Kind, t: Topology, tables: map<Key, Entry>, g: Group)
    requires WellFormed(kind, t, g)
  {
    forall j :: 0 <= j < |Installs(kind, t, g)| ==>
      var p := Installs(kind, t, g)[j]; p.0 in tables && tables[p.0] == p.1
  }

  ghost predicate Owned(kind: Kind, t: Topology, live: Live, k: Key)
    requires MembersOk(kind, t, live)
  {
    exists id :: id in live && Owns(kind, live[id], |live[id].members|, k)
  }

  /** The tables hold the entries of the live groups and nothing else. */
  ghost predicate TablesOk(kind: Kind, t: Topology, tables: map<Key, Entry>, live: Live)
    requires MembersOk(kind, t, live)
  {
    && (forall id :: id in live ==> Installed(kind, t, tables, live[id]))
    && (forall k :: k in tables ==> Owned(kind, t, live, k))
  }

  /** A group's entries stay when the tables change only elsewhere. */
  lemma StaysInstalled(kind: Kind, t: Topology, tables: map<Key, Entry>, after: map<Key, Entry>, g: Group)
    requires WellFormed(kind, t, g) && Installed(kind, t, tables, g)
    requires forall k :: k in tables && Owns(kind, g, |g.members|, k) ==> k in after && after[k] == tables[k]
    ensures Installed(kind, t, after, g)
  {
    forall j | 0 <= j < |Installs(kind, t, g)|
      ensures var p := Installs(kind, t, g)[j]; p.0 in after && after[p.0] == p.1
    {
      var p := Installs(kind, t, g)[j];
      assert HasKey(Installs(kind, t, g), p.0);
      InstallsExactly(kind, t, g, p.0);
    }
  }

  // ---- Adding a group --------------------------------------------------------------------------

  lemma IdsAdd(free: seq<nat>, live: Live, g: Group)
    requires IdsOk(free, live) && free != [] && g.id == free[0]
    ensures g.id !in live && IdsOk(free[1..], live[g.id := g])
  {
    assert free == [free[0]] + free[1..];
    forall x: nat ensures x in free <==> x == free[0] || x in free[1..] {}
    forall i, j | 0 <= i < j < |free[1..]| ensures free[1..][i] != free[1..][j] { assert free[1 + i] != free[1 + j]; }
    assert free[0] !in free[1..] by {
      forall i | 0 <= i < |free[1..]| ensures free[1..][i] != free[0] { assert free[1 + i] != free[0]; }
    }
  }

  lemma UsedAdd(live: Live, g: Group, x: nat)
    requires g.id !in live
    ensures UsedNode(live[g.id := g], x) <==> UsedNode(live, x) || x in g.nodes
  {
    var after := live[g.id := g];
    if id :| id in live && x in live[id].nodes { assert after[id] == live[id]; }
    if x in g.nodes { assert after[g.id] == g; }
  }

  lemma DistinctJoin(a: seq<nat>, b: seq<nat>)
    ensures Distinct(a + b) <==> Distinct(a) && Distinct(b) && forall x :: x in a ==> x !in b
  {
    var c := a + b;
    assert forall i :: 0 <= i < |a| ==> c[i] == a[i];
    assert forall i :: 0 <= i < |b| ==> c[|a| + i] == b[i];
    if Distinct(a) && Distinct(b) && forall x :: x in a ==> x !in b {
      forall i, j | 0 <= i < j < |c| ensures c[i] != c[j] {
        assert i < |a| <= j ==> a[i] in a && b[j - |a|] in b;
      }
    }
    if Distinct(c) {
      forall i, j | 0 <= i < j < |a| ensures a[i] != a[j] { assert c[i] != c[j]; }
      forall i, j | 0 <= i < j < |b| ensures b[i] != b[j] { assert c[|a| + i] != c[|a| + j]; }
      forall i, j | 0 <= i < |a| && 0 <= j < |b| ensures a[i] != b[j] { assert c[i] != c[|a| + j]; }
    }
  }

  lemma NodesAdd(free: seq<nat>, live: Live, g: Group, n: nat)
    requires NodesOk(free, live) && n <= |free| && g.nodes == free[..n] && g.id !in live
    ensures NodesOk(free[n..], live[g.id := g])
  {
    var rest, after := free[n..], live[g.id := g];
    assert free == g.nodes + rest;
    DistinctJoin(g.nodes, rest);
    forall x: nat ensures UsedNode(after, x) <==> UsedNode(live, x) || x in g.nodes { UsedAdd(live, g, x); }
    forall a, x: nat | a in live && x in live[a].nodes ensures x !in g.nodes { assert UsedNode(live, x); }
    forall x: nat ensures x in free <==> x in g.nodes || x in rest {}
    assert forall x: nat :: x in rest ==> !UsedNode(after, x);
  }

  lemma MembersAdd(kind: Kind, t: Topology, live: Live, g: Group)
    requires MembersOk(kind, t, live) && WellFormed(kind, t, g) && DistinctMembers(g)
    requires forall id, ip, qpn :: id in live && Uses(live[id], ip, qpn) ==> !Uses(g, ip, qpn)
    ensures MembersOk(kind, t, live[g.id := g])
  {
  }

  lemma TakenAdd(live: Live, g: Group, x: nat)
    requires g.id !in live
    ensures TakenAt(live[g.id := g], x) <==> TakenAt(live, x) || g.range.Has(x)
  {
    var after := live[g.id := g];
    if id :| id in live && live[id].range.Has(x) { assert after[id] == live[id]; }
    if g.range.Has(x) { assert after[g.id] == g; }
  }

  lemma {:induction false} MemoryAdd(ms: seq<Segment>, live: Live, g: Group, f: Fit)
    requires MemoryOk(ms, live) && g.id !in live && f.At? && g.range.lo < g.range.hi
    requires IsFirstFit(ms, g.range.hi - g.range.lo, f) && f.addr == g.range.lo
    ensures MemoryOk(Allocated(ms, f.index, g.range.lo, g.range.hi), live[g.id := g])
  {
    var lo, hi := g.range.lo, g.range.hi;
    AlignedLo(lo, hi - lo);
    AllocatedOrdered(ms, f.index, lo, hi);
    hide Allocated, FreeAt, TakenAt, Ordered, MtuAligned, ValidSize, Multiple;
    forall x: nat
      ensures FreeAt(Allocated(ms, f.index, lo, hi), x) <==> FreeAt(ms, x) && !(lo <= x < hi)
      ensures TakenAt(live[g.id := g], x) <==> TakenAt(live, x) || lo <= x < hi
      ensures lo <= x < hi ==> FreeAt(ms, x)
    {
      MemoryAddAt(ms, live, g, f, x);
    }
    forall a, x: nat | a in live && live[a].range.Has(x) ensures !g.range.Has(x) { RangeIsTaken(live, a, x); }
  }

  lemma MemoryAddAt(ms: seq<Segment>, live: Live, g: Group, f: Fit, x: nat)
    requires MemoryOk(ms, live) && g.id !in live && f.At? && g.range.lo < g.range.hi
    requires IsFirstFit(ms, g.range.hi - g.range.lo, f) && f.addr == g.range.lo
    ensures FreeAt(Allocated(ms, f.index, g.range.lo, g.range.hi), x) <==> FreeAt(ms, x) && !g.range.Has(x)
    ensures TakenAt(live[g.id := g], x) <==> TakenAt(live, x) || g.range.Has(x)
    ensures g.range.Has(x) ==> FreeAt(ms, x)
  {
    hide Allocated, TakenAt, Ordered, MtuAligned, ValidSize;
    AllocatedSet(ms, f.index, g.range.lo, g.range.hi, x);
    TakenAdd(live, g, x);
    if g.range.Has(x) { assert ms[f.index].Has(x); }
  }

  lemma RangeIsTaken(live: Live, a: nat, x: nat)
    requires a in live && live[a].range.Has(x)
    ensures TakenAt(live, x)
  {
  }

  lemma {:induction false} MemoryAddNone(ms: seq<Segment>, live: Live, g: Group)
    requires MemoryOk(ms, live) && g.id !in live && g.range.lo == g.range.hi
    ensures MemoryOk(ms, live[g.id := g])
  {
    forall x: nat ensures TakenAt(live[g.id := g], x) <==> TakenAt(live, x) { TakenAdd(live, g, x); }
  }

  lemma OnPortAdd(live: Live, g: Group, p: nat)
    requires g.id !in live
    ensures |OnPort(live[g.id := g], p)| == |OnPort(live, p)| + (if g.port == Some(p) then 1 else 0)
  {
    var after := live[g.id := g];
    if g.port == Some(p) {
      assert OnPort(after, p) == OnPort(live, p) + {g.id};
    } else {
      assert OnPort(after, p) == OnPort(live, p);
    }
  }

  lemma PortsAdd(count: seq<int>, live: Live, g: Group)
    requires PortsOk(count, live) && g.id !in live && (g.port.Some? ==> g.port.value < |count|)
    ensures PortsOk(if g.port.Some? then count[g.port.value := count[g.port.value] + 1] else count, live[g.id := g])
  {
    forall p | 0 <= p < |count|
      ensures |OnPort(live[g.id := g], p)| == |OnPort(live, p)| + (if g.port == Some(p) then 1 else 0)
    {
      OnPortAdd(live, g, p);
    }
  }

  /** Live groups own disjoint sets of keys. */
  lemma OwnersApart(kind: Kind, t: Topology, live: Live, free: seq<nat>, nodes: seq<nat>, a: nat, b: nat, k: Key)
    requires MembersOk(kind, t, live) && IdsOk(free, live) && NodesOk(nodes, live)
    requires a in live && b in live
    requires Owns(kind, live[a], |live[a].members|, k) && Owns(kind, live[b], |live[b].members|, k)
    ensures a == b
  {
    if k.MetadataKey? {
      assert Uses(live[a], k.ip, k.qpn) && Uses(live[b], k.ip, k.qpn);
    } else if k.NodeKey? {
      assert k.node in live[a].nodes && k.node in live[b].nodes;
    }
  }

  /** None of the keys of a new group is in the tables. */
  lemma FreshKeys(kind: Kind, t: Topology, tables: map<Key, Entry>, live: Live, free: seq<nat>, nodes: seq<nat>,
                  g: Group, k: Key)
    requires MembersOk(kind, t, live) && TablesOk(kind, t, tables, live) && g.id !in live && WellFormed(kind, t, g)
    requires MembersOk(kind, t, live[g.id := g]) && IdsOk(free, live[g.id := g]) && NodesOk(nodes, live[g.id := g])
    requires Owns(kind, g, |g.members|, k)
    ensures k !in tables
  {
    hide Owns, Installed, IdsOk, NodesOk, ValidSize, Multiple;
    if k in tables {
      assert Owned(kind, t, live, k);
      var id :| id in live && Owns(kind, live[id], |live[id].members|, k);
      OwnersApart(kind, t, live[g.id := g], free, nodes, id, g.id, k);
    }
  }

  lemma OwnedAdd(kind: Kind, t: Topology, live: Live, g: Group, k: Key)
    requires MembersOk(kind, t, live) && g.id !in live && MembersOk(kind, t, live[g.id := g]) && WellFormed(kind, t, g)
    ensures Owned(kind, t, live[g.id := g], k) <==> Owned(kind, t, live, k) || Owns(kind, g, |g.members|, k)
  {
    hide Owns, ValidSize, Multiple, Uses, DistinctMembers;
    var after := live[g.id := g];
    assert after[g.id] == g && forall id :: id in live ==> after[id] == live[id];
  }

  lemma {:induction false} TablesAdd(kind: Kind, t: Topology, tables: map<Key, Entry>, live: Live, g: Group)
    requires MembersOk(kind, t, live) && TablesOk(kind, t, tables, live) && g.id !in live
    requires MembersOk(kind, t, live[g.id := g]) && WellFormed(kind, t, g) && DistinctMembers(g) && Distinct(g.nodes)
    requires forall k :: Owns(kind, g, |g.members|, k) ==> k !in tables
    ensures TablesOk(kind, t, AddAll(tables, Installs(kind, t, g)), live[g.id := g])
  {
    hide Owns, Installs, AddAll, HasKey, Installed, Owned, ValidSize, Distinct;
    var l, after := Installs(kind, t, g), live[g.id := g];
    var added := AddAll(tables, l);
    forall k
      ensures k in added <==> k in tables || Owns(kind, g, |g.members|, k)
      ensures k in tables ==> added[k] == tables[k]
    {
      AddAllKeys(tables, l, k);
      InstallsExactly(kind, t, g, k);
    }
    forall id | id in after ensures Installed(kind, t, added, after[id]) {
      if id == g.id { NewInstalled(kind, t, tables, g); } else { StaysInstalled(kind, t, tables, added, live[id]); }
    }
    forall k | k in added ensures Owned(kind, t, after, k) { OwnedAdd(kind, t, live, g, k); }
  }

  lemma NewInstalled(kind: Kind, t: Topology, tables: map<Key, Entry>, g: Group)
    requires WellFormed(kind, t, g) && DistinctMembers(g) && Distinct(g.nodes)
    ensures Installed(kind, t, AddAll(tables, Installs(kind, t, g)), g)
  {
    InstallsDistinct(kind, t, g);
    forall j | 0 <= j < |Installs(kind, t, g)|
      ensures var p := Installs(kind, t, g)[j];
              p.0 in AddAll(tables, Installs(kind, t, g)) && AddAll(tables, Installs(kind, t, g))[p.0] == p.1
    {
      AddAllValues(tables, Installs(kind, t, g), j);
    }
  }

  // ---- Removing a group ------------------------------------------------------------------------

  lemma IdsRemove(free: seq<nat>, live: Live, id: nat)
    requires IdsOk(free, live) && id in live
    ensures IdsOk(free + [id], live - {id})
  {
  }

  lemma NodesRemove(free: seq<nat>, live: Live, id: nat)
    requires NodesOk(free, live) && id in live
    ensures NodesOk(free + live[id].nodes, live - {id})
  {
    var after, nodes := live - {id}, live[id].nodes;
    forall x: nat ensures UsedNode(live, x) <==> UsedNode(after, x) || x in nodes {
      if a :| a in live && x in live[a].nodes { if a != id { assert a in after; } }
    }
    forall x | x in nodes ensures x !in free && !UsedNode(after, x) { assert UsedNode(live, x); }
    DistinctJoin(free, nodes);
  }

  lemma MemoryReleasable(ms: seq<Segment>, live: Live, id: nat)
    requires MemoryOk(ms, live) && id in live && live[id].range.lo < live[id].range.hi
    ensures !Rejected(ms, live[id].range.lo, live[id].range.hi)
  {
    var lo, hi := live[id].range.lo, live[id].range.hi;
    var r := FreeIndex(ms, lo);
    if r < |ms| && ms[r].lo < hi {
      var x := if ms[r].lo < lo then lo else ms[r].lo;
      assert ms[r].Has(x) && live[id].range.Has(x);
      assert FreeAt(ms, x) && TakenAt(live, x);
    }
  }

  lemma TakenRemove(ms: seq<Segment>, live: Live, id: nat, x: nat)
    requires MemoryOk(ms, live) && id in live
    ensures TakenAt(live - {id}, x) <==> TakenAt(live, x) && !live[id].range.Has(x)
  {
    var after := live - {id};
    if a :| a in live && live[a].range.Has(x) && a != id { assert a in after && after[a] == live[a]; }
    if a :| a in after && after[a].range.Has(x) { assert a in live && live[a].range.Has(x); }
  }

  lemma {:induction false} MemoryRemove(ms: seq<Segment>, live: Live, id: nat)
    requires MemoryOk(ms, live) && id in live && live[id].range.lo < live[id].range.hi
    requires live[id].range.lo % MTU_SIZE == 0 && live[id].range.hi % MTU_SIZE == 0
    ensures !Rejected(ms, live[id].range.lo, live[id].range.hi)
    ensures MemoryOk(Freed(ms, live[id].range.lo, live[id].range.hi), live - {id})
  {
    var lo, hi := live[id].range.lo, live[id].range.hi;
    MemoryReleasable(ms, live, id);
    FreedOrdered(ms, lo, hi);
    forall x: nat
      ensures FreeAt(Freed(ms, lo, hi), x) <==> FreeAt(ms, x) || lo <= x < hi
      ensures TakenAt(live - {id}, x) <==> TakenAt(live, x) && !(lo <= x < hi)
      ensures lo <= x < hi ==> TakenAt(live, x)
    {
      FreedSet(ms, lo, hi, x);
      TakenRemove(ms, live, id, x);
    }
  }

  lemma {:induction false} MemoryRemoveNone(ms: seq<Segment>, live: Live, id: nat)
    requires MemoryOk(ms, live) && id in live && live[id].range.lo == live[id].range.hi
    ensures MemoryOk(ms, live - {id})
  {
    forall x: nat ensures TakenAt(live - {id}, x) <==> TakenAt(live, x) { TakenRemove(ms, live, id, x); }
  }

  lemma PortsRemove(count: seq<int>, live: Live, id: nat)
    requires PortsOk(count, live) && id in live && live[id].id == id
    requires (live[id].port.Some? ==> live[id].port.value < |count|)
    ensures var p := live[id].port;
            PortsOk(if p.Some? then count[p.value := count[p.value] - 1] else count, live - {id})
  {
    var after := live - {id};
    assert after[id := live[id]] == live;
    forall p | 0 <= p < |count|
      ensures |OnPort(after, p)| == |OnPort(live, p)| - (if live[id].port == Some(p) then 1 else 0)
    {
      OnPortAdd(after, live[id], p);
    }
  }

  lemma {:induction false} TablesRemove(kind: Kind, t: Topology, tables: map<Key, Entry>, live: Live, free: seq<nat>,
                                        nodes: seq<nat>,
                                        id: nat, after: map<Key, Entry>)
    requires MembersOk(kind, t, live) && IdsOk(free, live) && NodesOk(nodes, live) && TablesOk(kind, t, tables, live)
    requires id in live
    requires forall k :: k in after <==> k in tables && !Owns(kind, live[id], |live[id].members|, k)
    requires forall k :: k in after ==> after[k] == tables[k]
    ensures MembersOk(kind, t, live - {id}) && TablesOk(kind, t, after, live - {id})
  {
    hide Owns, Installs, HasKey, ValidSize, Multiple, Uses, DistinctMembers;
    var rest := live - {id};
    forall a | a in rest ensures Installed(kind, t, after, rest[a]) {
      forall k | Owns(kind, live[a], |live[a].members|, k) ensures !Owns(kind, live[id], |live[id].members|, k) {
        if Owns(kind, live[id], |live[id].members|, k) { OwnersApart(kind, t, live, free, nodes, a, id, k); }
      }
      StaysInstalled(kind, t, tables, after, live[a]);
    }
    forall k | k in after ensures Owned(kind, t, rest, k) {
      assert Owned(kind, t, live, k);
      var a :| a in live && Owns(kind, live[a], |live[a].members|, k);
      assert a in rest && rest[a] == live[a];
    }
  }

  // ---- Slots -----------------------------------------------------------------------------------

  lemma SlotWithin(kind: Kind, t: Topology, g: Group, psn: nat)
    requires kind != Broadcast && WellFormed(kind, t, g) && g.range.hi - g.range.lo >= MTU_SIZE
    ensures g.range.Has(SlotOf(g.range.lo, g.range.hi - g.range.lo, psn) * MTU_SIZE)
  {
    hide SlotOf;
    SlotInRange(g.range.lo, g.range.hi - g.range.lo, psn);
  }

  /** Packets of two live groups never use the same aggregation slot, whatever their sequence numbers. */
  lemma {:induction false} SlotsApart(kind: Kind, t: Topology, ms: seq<Segment>, live: Live, a: nat, b: nat, psn: nat,
                                      psn': nat)
    requires kind != Broadcast && MembersOk(kind, t, live) && MemoryOk(ms, live) && a in live && b in live
    requires var (r, r') := (live[a].range, live[b].range);
             && r.hi - r.lo >= MTU_SIZE && r'.hi - r'.lo >= MTU_SIZE
             && SlotOf(r.lo, r.hi - r.lo, psn) == SlotOf(r'.lo, r'.hi - r'.lo, psn')
    ensures a == b
  {
    hide MemoryOk, SlotOf, ValidSize, Multiple, Uses, DistinctMembers;
    var r, r' := live[a].range, live[b].range;
    SlotWithin(kind, t, live[a], psn);
    SlotWithin(kind, t, live[b], psn');
    RangesApart(ms, live, a, b, SlotOf(r.lo, r.hi - r.lo, psn) * MTU_SIZE);
  }

  lemma RangesApart(ms: seq<Segment>, live: Live, a: nat, b: nat, x: nat)
    requires MemoryOk(ms, live) && a in live && b in live && live[a].range.Has(x) && live[b].range.Has(x)
    ensures a == b
  {
  }

  /** The slot the data plane computes from a metadata entry. */
  function EntrySlot(e: Entry, psn: nat): nat
    requires e.Aggregate?
  {
    e.address + BitAnd(psn, e.offsetMask)
  }

  /** Every metadata entry is that of a member of a live group. */
  lemma MetadataOwner(kind: Kind, t: Topology, tables: map<Key, Entry>, live: Live, k: Key) returns (id: nat, i: nat)
    requires MembersOk(kind, t, live) && TablesOk(kind, t, tables, live) && k.MetadataKey? && k in tables
    ensures id in live && i < |live[id].members| && (live[id].members[i].ip, live[id].members[i].qpn) == (k.ip, k.qpn)
    ensures tables[k] == Own(kind, t, live[id], i)[0].1
  {
    assert Owned(kind, t, live, k);
    id :| id in live && Owns(kind, live[id], |live[id].members|, k);
    var g := live[id];
    i :| 0 <= i < |g.members| && g.members[i].ip == k.ip && g.members[i].qpn == k.qpn;
    hide Own, Header, Members, Installs, Owns, Owned, Installed;
    OwnMetadata(kind, t, tables, g, i);
  }

  lemma OwnMetadata(kind: Kind, t: Topology, tables: map<Key, Entry>, g: Group, i: nat)
    requires WellFormed(kind, t, g) && Installed(kind, t, tables, g) && i < |g.members|
    ensures var (k, own) := (MetadataKey(g.members[i].ip, g.members[i].qpn), Own(kind, t, g, i));
            |own| >= 3 && k in tables && tables[k] == own[0].1
  {
    var own := Own(kind, t, g, i);
    assert |own| >= 3 && own[0].0 == MetadataKey(g.members[i].ip, g.members[i].qpn);
    hide Own, Header, Members, Installs, WellFormed;
    Block(kind, t, g, i);
    var d := |Header(kind, t, g) + Members(kind, t, g, i)|;
    assert Installs(kind, t, g)[d] == Installs(kind, t, g)[d..d + |own|][0];
  }

  /** It names that member's group and rank, and addresses only the group's own slots. */
  lemma {:induction false} MetadataAddressesOwnSlots(
    kind: Kind, t: Topology, ms: seq<Segment>, tables: map<Key, Entry>, live: Live, free: seq<nat>, k: Key, psn: nat)
    returns (id: nat, i: nat)
    requires kind != Broadcast && MembersOk(kind, t, live) && MemoryOk(ms, live) && TablesOk(kind, t, tables, live)
    requires IdsOk(free, live)
    requires k.MetadataKey? && k in tables
    ensures id in live && i < |live[id].members| && (live[id].members[i].ip, live[id].members[i].qpn) == (k.ip, k.qpn)
    ensures tables[k].Aggregate? && tables[k].group == id && tables[k].rank == i
    ensures var (r, slot) := (live[id].range, EntrySlot(tables[k], psn));
            && r.Has(slot * MTU_SIZE)
            && r.hi - r.lo >= MTU_SIZE && slot == r.lo / MTU_SIZE + psn % ((r.hi - r.lo) / MTU_SIZE)
    ensures EntrySlot(tables[k], psn) < SWITCH_MEM_SIZE / MTU_SIZE
  {
    hide Installed, Owned, Uses, DistinctMembers, FreeAt, Ordered, MtuAligned;
    id, i := MetadataOwner(kind, t, tables, live, k);
    var r := live[id].range;
    SlotInRange(r.lo, r.hi - r.lo, psn);
    assert EntrySlot(tables[k], psn) == SlotOf(r.lo, r.hi - r.lo, psn);
    assert r.Has(SlotOf(r.lo, r.hi - r.lo, psn) * MTU_SIZE);
    assert TakenAt(live, SlotOf(r.lo, r.hi - r.lo, psn) * MTU_SIZE);
  }
}
