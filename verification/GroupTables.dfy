/** What the table entries of the live groups mean: which member a packet is taken for and what it marks, whom a
    result is sent to, and under whose address. Nothing here refers to how the entries were made. */
module GroupTables {
  import opened Options
  import opened Bitmaps
  import opened SwitchPipeline
  import opened Segments
  import opened Groups
  import opened GroupInvariant
  import Controller

  type Tables = map<Key, Entry>

  ghost predicate Consistent(kind: Kind, t: Topology, tables: Tables, live: Live, free: seq<nat>)
  {
    MembersOk(kind, t, live) && TablesOk(kind, t, tables, live) && IdsOk(free, live)
  }

  /** So is every state of a servicer. */
  lemma ServicerIsConsistent(c: Controller.Servicer)
    requires c.Valid()
    ensures Consistent(c.kind, c.topology, c.tables, c.live, c.freeGroup) && NodesOk(c.freeNode, c.live)
  {
    hide IdsOk, NodesOk, MembersOk, MemoryOk, PortsOk, TablesOk, Controller.UndoOk;
  }

  // ---- Finding a group's entries ---------------------------------------------------------------

  lemma OwnInstalled(kind: Kind, t: Topology, tables: Tables, g: Group, i: nat, j: nat)
    requires WellFormed(kind, t, g) && Installed(kind, t, tables, g) && i < |g.members| && j < |Own(kind, t, g, i)|
    ensures var own := Own(kind, t, g, i)[j]; own.0 in tables && tables[own.0] == own.1
  {
    hide Own, Header, Members, Installs, WellFormed, Installed;
    Block(kind, t, g, i);
    var d := |Header(kind, t, g) + Members(kind, t, g, i)|;
    SliceAt(Installs(kind, t, g), d, Own(kind, t, g, i), j);
    InstalledAt(kind, t, tables, g, d + j);
  }

  lemma SliceAt(all: seq<Install>, d: nat, own: seq<Install>, j: nat)
    requires d + |own| <= |all| && all[d..d + |own|] == own && j < |own|
    ensures all[d + j] == own[j]
  {
  }

  lemma InstalledAt(kind: Kind, t: Topology, tables: Tables, g: Group, x: nat)
    requires WellFormed(kind, t, g) && Installed(kind, t, tables, g) && x < |Installs(kind, t, g)|
    ensures var p := Installs(kind, t, g)[x]; p.0 in tables && tables[p.0] == p.1
  {
    hide Installs, WellFormed;
  }

  lemma HeaderInstalled(kind: Kind, t: Topology, tables: Tables, g: Group, j: nat)
    requires WellFormed(kind, t, g) && Installed(kind, t, tables, g) && j < |Header(kind, t, g)|
    ensures var p := Header(kind, t, g)[j]; p.0 in tables && tables[p.0] == p.1
  {
    hide Header, Installs, WellFormed;
    InstallsShape(kind, t, g);
    assert Installs(kind, t, g)[j] == Header(kind, t, g)[j];
  }

  /** Member i's entries, one by one. */
  lemma EntriesOfMember(kind: Kind, t: Topology, tables: Tables, g: Group, i: nat)
    requires WellFormed(kind, t, g) && Installed(kind, t, tables, g) && i < |g.members|
    ensures kind != Broadcast ==> g.range.lo + MTU_SIZE <= g.range.hi
    ensures var m := g.members[i];
            && tables.Items >= {(MetadataKey(m.ip, m.qpn), MetadataOf(kind, g, i)),
                                (RestoreKey(g.id, i, true), Restore(m.ip, m.qpn, Some(m.rkey))),
                                (RestoreKey(g.id, i, false), Restore(m.ip, m.qpn, None))}
            && (!(kind == Reduce && i == g.root) ==>
                  (NodeKey(g.nodes[i]), Replica(i, t.ports[m.ip])) in tables.Items)
  {
    hide Installed, MetadataOf, Multiple;
    var own := Own(kind, t, g, i);
    OwnInstalled(kind, t, tables, g, i, 0);
    OwnInstalled(kind, t, tables, g, i, 1);
    OwnInstalled(kind, t, tables, g, i, 2);
    if !(kind == Reduce && i == g.root) { OwnInstalled(kind, t, tables, g, i, 3); }
  }

  // ---- Who a packet is taken for ---------------------------------------------------------------

  /** The one rank a bitmap holds, and the ranks a mask waits for: all of n but the one left out. */
  ghost predicate Marks(bitmap: Bitmap, mask: Bitmap, rank: nat, n: nat, except: Option<nat>)
  {
    && (forall x: nat :: x < WIDTH ==> (bitmap[x] <==> x == rank))
    && (forall x: nat :: x < WIDTH ==> (mask[x] <==> x < n && except != Some(x)))
  }

  /** The root of a reduce or broadcast group. */
  function RootOf(kind: Kind, g: Group): Option<nat>
  {
    if kind == Allreduce then None else Some(g.root)
  }

  /** What a metadata entry must say of member i of g. */
  ghost predicate TakenFor(kind: Kind, g: Group, i: nat, e: Entry)
  {
    match e
    case Aggregate(group, rank, root, bitmap, mask, _, _) =>
      && kind != Broadcast && group == g.id && rank == i && root == RootOf(kind, g)
      && Marks(bitmap, mask, i, |g.members|, RootOf(kind, g))
    case BroadcastRoot(group, rank) => kind == Broadcast && group == g.id && rank == i == g.root
    case BroadcastAck(group, rank, source, bitmap, mask) =>
      && kind == Broadcast && group == g.id && rank == i != g.root && source == g.root
      && Marks(bitmap, mask, i, |g.members|, RootOf(kind, g))
    case _ => false
  }

  lemma MetadataTakenFor(kind: Kind, g: Group, i: nat)
    requires (kind != Broadcast ==> g.range.lo + MTU_SIZE <= g.range.hi) && i < |g.members| <= WIDTH
    requires kind != Allreduce ==> g.root < |g.members|
    ensures TakenFor(kind, g, i, MetadataOf(kind, g, i))
  {
  }

  /** Every metadata entry is for one member of one live group, marks that member's bit alone, and waits for all
      members, or for all but the root. */
  lemma MetadataMarks(kind: Kind, t: Topology, tables: Tables, live: Live, free: seq<nat>, k: Key)
    returns (id: nat, i: nat)
    requires Consistent(kind, t, tables, live, free) && k.MetadataKey? && k in tables
    ensures id in live && live[id].id == id && i < |live[id].members|
    ensures (live[id].members[i].ip, live[id].members[i].qpn) == (k.ip, k.qpn)
    ensures TakenFor(kind, live[id], i, tables[k])
  {
    assert Owned(kind, t, live, k);
    id :| id in live && Owns(kind, live[id], |live[id].members|, k);
    var g := live[id];
    i :| 0 <= i < |g.members| && g.members[i].ip == k.ip && g.members[i].qpn == k.qpn;
    hide Owns, Owned, Installed, TakenFor, MetadataOf, Multiple, ValidSize;
    EntriesOfMember(kind, t, tables, g, i);
    MetadataTakenFor(kind, g, i);
  }

  lemma MaskedFull(order: seq<nat>, bitmap: Bitmap, mask: Bitmap, i: nat, n: nat, except: Option<nat>)
    requires Marks(bitmap, mask, i, n, except) && i < n <= WIDTH && except != Some(i)
    requires forall q: nat :: q in order ==> q < n && except != Some(q)
    ensures OrAll(order) == Xor(bitmap, mask) || OrAll(order) == mask <==>
            forall r: nat :: r < n && except != Some(r) ==> r in order || r == i
  {
    forall k: nat | k < WIDTH ensures OrAll(order)[k] <==> k in order { OrAllMembers(order, k); }
    if forall r: nat :: r < n && except != Some(r) ==> r in order || r == i {
      if i in order {
        assert OrAll(order) == mask;
      } else {
        assert OrAll(order) == Xor(bitmap, mask);
      }
    }
    if OrAll(order) == Xor(bitmap, mask) || OrAll(order) == mask {
      forall r: nat | r < n && except != Some(r) ensures r in order || r == i {
        assert OrAll(order)[r] || r == i;
      }
    }
  }

  lemma MarkedIncreases(order: seq<nat>, bitmap: Bitmap, mask: Bitmap, i: nat, n: nat, except: Option<nat>)
    requires Marks(bitmap, mask, i, n, except) && i < n <= WIDTH
    ensures Increases(OrAll(order), bitmap) <==> i !in order
  {
    OrAllMembers(order, i);
    assert bitmap[i];
  }

  /** A packet of member i, with the bitmap and mask its entry puts on it, finds its slot full exactly when every
      member but the root has contributed, and is added exactly when it has not been before. */
  lemma InstalledFillsSlot(kind: Kind, t: Topology, tables: Tables, live: Live, free: seq<nat>, k: Key,
                           inputs: Inputs, version: nat, order: seq<nat>, p: Payload) returns (id: nat, i: nat)
    requires Consistent(kind, t, tables, live, free) && kind != Broadcast && k.MetadataKey? && k in tables
    ensures id in live && i < |live[id].members| && tables[k].Aggregate?
    ensures (live[id].members[i].ip, live[id].members[i].qpn) == (k.ip, k.qpn)
    ensures var (root, n) := (RootOf(kind, live[id]), |live[id].members|);
            var o := FirstPass(SlotAfter(inputs, version, order), version, tables[k].bitmap, tables[k].mask, p);
            root != Some(i) && (forall q: nat :: q in order ==> q < n && root != Some(q)) ==>
              && (o.full <==> forall r: nat :: r < n && root != Some(r) ==> r in order || r == i)
              && (o.increase <==> i !in order)
  {
    id, i := MetadataMarks(kind, t, tables, live, free, k);
    var root, n, e := RootOf(kind, live[id]), |live[id].members|, tables[k];
    assert n <= WIDTH;
    PassOfSlot(inputs, version, order, e.bitmap, e.mask, p);
    hide Consistent, Marks, FirstPass, SlotAfter, TakenFor, Increases, Xor;
    if root != Some(i) && forall q: nat :: q in order ==> q < n && root != Some(q) {
      MaskedFull(order, e.bitmap, e.mask, i, n, root);
      MarkedIncreases(order, e.bitmap, e.mask, i, n, root);
    }
  }

  lemma PassOfSlot(inputs: Inputs, version: nat, order: seq<nat>, bitmap: Bitmap, mask: Bitmap, p: Payload)
    ensures var o := FirstPass(SlotAfter(inputs, version, order), version, bitmap, mask, p);
            && (o.full <==> OrAll(order) == Xor(bitmap, mask) || OrAll(order) == mask)
            && (o.increase <==> Increases(OrAll(order), bitmap))
  {
    hide FoldLo, FoldHi, AddLanes, Or;
  }

  /** The address a member is told at creation is the switch's, with the queue pair number under which the member's
      own packets are then taken for its rank. */
  lemma ToldAddressIsTaken(kind: Kind, t: Topology, switchIp: nat, members: seq<Member>, size: nat, root: nat,
                           s: State, live: Live, reply: Controller.Reply, s': State, live': Live, i: nat)
    requires Controller.Answer(kind, t, switchIp, members, size, root, s, live, reply, s', live') && reply.Created?
    requires Controller.Inv(kind, t, s', live') && i < |members|
    ensures |reply.members| == |members| && reply.members[i].ip == switchIp
    ensures reply.members[i].rkey == members[i].rkey
    ensures var k := MetadataKey(members[i].ip, reply.members[i].qpn);
            k in s'.tables && GroupOf(s'.tables[k]) == Some((reply.id, i))
  {
    var g := live'[reply.id];
    assert MembersOk(kind, t, live') && TablesOk(kind, t, s'.tables, live') && g.id == reply.id;
    hide Controller.Admission, Installed, MetadataOf, Multiple, ValidSize, TakenFor, IsFirstFit;
    EntriesOfMember(kind, t, s'.tables, g, i);
    MetadataTakenFor(kind, g, i);
    TakenForNames(kind, g, i, MetadataOf(kind, g, i));
  }

  // ---- Whom a result is sent to ----------------------------------------------------------------

  function GroupOf(e: Entry): Option<(nat, nat)>
  {
    match e
    case Aggregate(group, rank, _, _, _, _, _) => Some((group, rank))
    case BroadcastRoot(group, rank) => Some((group, rank))
    case BroadcastAck(group, rank, _, _, _) => Some((group, rank))
    case _ => None
  }

  /** Restoring undoes what the metadata lookup did: a packet for rank i of a group leaves under the address and
      queue pair whose packets are taken for that rank of that group, with a key exactly if it has a place for one. */
  lemma RestoreInverts(kind: Kind, t: Topology, tables: Tables, live: Live, free: seq<nat>, k: Key)
    requires Consistent(kind, t, tables, live, free) && k.RestoreKey? && k in tables
    ensures k.group in live && k.rank < |live[k.group].members| && tables[k].Restore?
    ensures var back := MetadataKey(tables[k].ip, tables[k].qpn);
            back in tables && GroupOf(tables[back]) == Some((k.group, k.rank))
    ensures tables[k].rkey == if k.reth then Some(live[k.group].members[k.rank].rkey) else None
  {
    assert Owned(kind, t, live, k);
    var id :| id in live && Owns(kind, live[id], |live[id].members|, k);
    hide Owned, Installed, TakenFor, MetadataOf, Multiple, ValidSize;
    EntriesOfMember(kind, t, tables, live[id], k.rank);
    MetadataTakenFor(kind, live[id], k.rank);
    TakenForNames(kind, live[id], k.rank, MetadataOf(kind, live[id], k.rank));
  }

  lemma TakenForNames(kind: Kind, g: Group, i: nat, e: Entry)
    requires TakenFor(kind, g, i, e)
    ensures GroupOf(e) == Some((g.id, i))
  {
  }

  /** And every packet that is taken for a rank can be restored. */
  lemma MetadataRestored(kind: Kind, t: Topology, tables: Tables, live: Live, free: seq<nat>, k: Key, reth: bool)
    requires Consistent(kind, t, tables, live, free) && k.MetadataKey? && k in tables
    ensures GroupOf(tables[k]).Some?
    ensures var at := GroupOf(tables[k]).value; var back := RestoreKey(at.0, at.1, reth);
            back in tables && tables[back].Restore? && (tables[back].ip, tables[back].qpn) == (k.ip, k.qpn)
  {
    var id, i := MetadataMarks(kind, t, tables, live, free, k);
    hide TakenFor, Installed, MetadataOf, Multiple, ValidSize;
    TakenForNames(kind, live[id], i, tables[k]);
    EntriesOfMember(kind, t, tables, live[id], i);
  }

  /** Replicas are for every member but the root of a reduce group. */
  predicate Served(kind: Kind, g: Group, i: nat)
  {
    i < |g.members| && !(kind == Reduce && i == g.root)
  }

  lemma MulticastEntry(kind: Kind, t: Topology, tables: Tables, g: Group)
    requires WellFormed(kind, t, g) && Installed(kind, t, tables, g)
    ensures (kind == Reduce ==> g.root < |g.nodes|) && MulticastKey(g.id) in tables
    ensures tables[MulticastKey(g.id)] == Replicas(Targets(kind, g))
  {
    assert kind == Reduce ==> g.root < |g.nodes|;
    hide WellFormed, Header, Members;
    InstallsShape(kind, t, g);
    var n := |Header(kind, t, g) + Members(kind, t, g, |g.members|)|;
    assert Installs(kind, t, g)[n].0 == MulticastKey(g.id);
  }

  lemma TargetsAre(kind: Kind, g: Group, node: nat)
    requires |g.members| == |g.nodes| && (kind == Reduce ==> g.root < |g.nodes|)
    ensures node in Targets(kind, g) <==> exists i: nat :: Served(kind, g, i) && g.nodes[i] == node
  {
    var ts := Targets(kind, g);
    if node in ts {
      var x :| 0 <= x < |ts| && ts[x] == node;
      var i := if kind == Reduce && x >= g.root then x + 1 else x;
      assert Served(kind, g, i) && g.nodes[i] == node;
    }
    if i: nat :| Served(kind, g, i) && g.nodes[i] == node {
      var x := if kind == Reduce && i > g.root then i - 1 else i;
      assert ts[x] == node;
    }
  }

  /** The nodes of a group's multicast entry are exactly its nodes with a replica entry. */
  lemma MulticastListsReplicas(kind: Kind, t: Topology, tables: Tables, live: Live, free: seq<nat>, nodes: seq<nat>,
                               id: nat, node: nat)
    requires Consistent(kind, t, tables, live, free) && NodesOk(nodes, live) && id in live
    ensures MulticastKey(id) in tables && tables[MulticastKey(id)].Replicas?
    ensures node in tables[MulticastKey(id)].nodes <==> node in live[id].nodes && NodeKey(node) in tables
  {
    hide Installed, MetadataOf, Targets, ValidSize, Multiple, Owned, NodesOk;
    var g := live[id];
    MulticastEntry(kind, t, tables, g);
    TargetsAre(kind, g, node);
    if node in tables[MulticastKey(id)].nodes {
      var i: nat :| Served(kind, g, i) && g.nodes[i] == node;
      EntriesOfMember(kind, t, tables, g, i);
    }
    if node in g.nodes && NodeKey(node) in tables {
      var i := ReplicaIsServed(kind, t, tables, live, nodes, id, node);
    }
  }

  lemma ReplicaIsServed(kind: Kind, t: Topology, tables: Tables, live: Live, nodes: seq<nat>, id: nat, node: nat)
    returns (i: nat)
    requires MembersOk(kind, t, live) && TablesOk(kind, t, tables, live) && NodesOk(nodes, live)
    requires id in live && node in live[id].nodes && NodeKey(node) in tables
    ensures Served(kind, live[id], i) && live[id].nodes[i] == node
  {
    hide Installed, ValidSize, Multiple, Uses, DistinctMembers;
    assert Owned(kind, t, live, NodeKey(node));
    var a :| a in live && Owns(kind, live[a], |live[a].members|, NodeKey(node));
    i :| 0 <= i < |live[a].members| && live[a].nodes[i] == node && !(kind == Reduce && i == live[a].root);
    assert node in live[a].nodes;
  }

  /** A packet multicast to a group is replicated once for every member to be served, at the port the member's
      address is attached to, restored to that member's address and queue pair; and for nobody else. */
  lemma MulticastReaches(kind: Kind, t: Topology, tables: Tables, live: Live, free: seq<nat>, nodes: seq<nat>,
                         id: nat, node: nat) returns (i: nat)
    requires Consistent(kind, t, tables, live, free) && NodesOk(nodes, live) && id in live
    requires MulticastKey(id) in tables && tables[MulticastKey(id)].Replicas? && node in tables[MulticastKey(id)].nodes
    ensures Served(kind, live[id], i) && NodeKey(node) in tables && live[id].members[i].ip in t.ports
    ensures tables[NodeKey(node)] == Replica(i, t.ports[live[id].members[i].ip])
    ensures forall x: nat :: Served(kind, live[id], x) && x != i ==> live[id].nodes[x] != node
    ensures forall reth :: RestoreKey(id, i, reth) in tables && tables[RestoreKey(id, i, reth)].Restore?
    ensures forall reth :: var e := tables[RestoreKey(id, i, reth)];
              (e.ip, e.qpn) == (live[id].members[i].ip, live[id].members[i].qpn)
  {
    var g := live[id];
    MulticastEntry(kind, t, tables, g);
    TargetsAre(kind, g, node);
    i :| Served(kind, g, i) && g.nodes[i] == node;
    hide Installed, MetadataOf, Targets, ValidSize, Multiple;
    EntriesOfMember(kind, t, tables, g, i);
    assert Distinct(g.nodes);
  }

  lemma EveryMemberServed(kind: Kind, t: Topology, tables: Tables, live: Live, free: seq<nat>, id: nat, i: nat)
    requires Consistent(kind, t, tables, live, free) && id in live && Served(kind, live[id], i)
    ensures MulticastKey(id) in tables && tables[MulticastKey(id)].Replicas?
    ensures live[id].nodes[i] in tables[MulticastKey(id)].nodes
  {
    MulticastEntry(kind, t, tables, live[id]);
    TargetsAre(kind, live[id], live[id].nodes[i]);
  }

  /** Recirculation goes to the group's port, and what is for the root to the port of the root's address. */
  lemma ForwardEntries(kind: Kind, t: Topology, tables: Tables, live: Live, free: seq<nat>, id: nat)
    requires Consistent(kind, t, tables, live, free) && id in live
    ensures kind != Broadcast ==>
              && RecirculateKey(id) in tables && live[id].port.Some? && live[id].port.value < |t.recirculation|
              && tables[RecirculateKey(id)] == Forward(t.recirculation[live[id].port.value])
    ensures kind != Allreduce ==>
              && RootUnicastKey(id) in tables && RestoreKey(id, live[id].root, false) in tables
              && tables[RestoreKey(id, live[id].root, false)].Restore?
              && tables[RestoreKey(id, live[id].root, false)].ip in t.ports
              && tables[RootUnicastKey(id)] == Forward(t.ports[tables[RestoreKey(id, live[id].root, false)].ip])
  {
    var g := live[id];
    hide Installed, MetadataOf, Targets, ValidSize, Multiple;
    if kind != Broadcast { HeaderInstalled(kind, t, tables, g, 0); }
    if kind != Allreduce {
      HeaderInstalled(kind, t, tables, g, if kind == Broadcast then 0 else 1);
      EntriesOfMember(kind, t, tables, g, g.root);
    }
  }
}
