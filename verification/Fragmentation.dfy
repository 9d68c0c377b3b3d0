/** A run of the allreduce controller after which no group is live, all memory is free, and yet a
    request for all of it is refused. */
module Fragmentation {
  import opened Segments
  import opened Groups
  import opened GroupInvariant
  import opened Controller

  lemma SameFit(ms: seq<Segment>, size: nat, f: Fit, f': Fit)
    requires IsFirstFit(ms, size, f) && IsFirstFit(ms, size, f')
    ensures f == f'
  {
  }

  lemma FitOf(t: Topology, s: State, live: Live, g: Group, i: nat)
    requires Admissible(Allreduce, t, s, live, g, i)
    ensures g.port.Some? && g.range.lo < g.range.hi && i < |s.memseg|
    ensures IsFirstFit(s.memseg, g.range.hi - g.range.lo, At(i, g.range.lo))
  {
    hide ValidSize, Multiple, Holds, Uses, DistinctMembers;
  }

  /** Where a creation puts the group. */
  lemma Placed(t: Topology, s: State, live: Live, g: Group, after: State, size: nat, index: nat, lo: nat)
    requires Admission(Allreduce, t, s, live, g, after) && g.range.hi == g.range.lo + size
    requires IsFirstFit(s.memseg, size, At(index, lo))
    ensures g.range == Segment(lo, lo + size) && g.port.Some? && index < |s.memseg|
    ensures after.memseg == Allocated(s.memseg, index, lo, lo + size)
    ensures |after.freeGroup| == |s.freeGroup| - 1 && |after.freeNode| == |s.freeNode| - |g.members|
  {
    var i :| Admissible(Allreduce, t, s, live, g, i) && after == Admitted(Allreduce, t, s, g, i);
    hide IsFirstFit, ValidSize, Multiple, Uses, DistinctMembers, AddAll, Installs, Allocated;
    FitOf(t, s, live, g, i);
    SameFit(s.memseg, size, At(i, g.range.lo), At(index, lo));
  }

  /** A group of the one member m, which is in no live group, at the expected place. */
  method Take(c: Servicer, m: Member, size: nat, ghost index: nat, ghost lo: nat) returns (id: nat)
    requires c.Valid() && c.kind == Allreduce && c.freeGroup != [] && c.freeNode != []
    requires m.ip in c.topology.ports && forall x :: x in c.live ==> !Uses(c.live[x], m.ip, m.qpn)
    requires IsFirstFit(c.memseg, size, At(index, lo))
    modifies c
    ensures c.Valid() && id !in old(c.live) && id in c.live && c.live == old(c.live)[id := c.live[id]]
    ensures c.live[id].members == [m] && c.live[id].range == Segment(lo, lo + size) && c.live[id].port.Some?
    ensures index < |old(c.memseg)| && c.memseg == Allocated(old(c.memseg), index, lo, lo + size)
    ensures |c.freeGroup| == |old(c.freeGroup)| - 1 && |c.freeNode| == |old(c.freeNode)| - 1
  {
    ghost var s, live := c.Snapshot(), c.live;
    FitIsUnique(c.memseg, size, At(index, lo));
    hide Inv, IsFirstFit, ValidSize, Allocated, Installs, AddAll, Uses;
    var reply := c.CreateGroup([m], size, 0);
    id := reply.id;
    Placed(c.topology, s, live, c.live[id], c.Snapshot(), size, index, lo);
  }

  /** Give a group back. */
  method Give(c: Servicer, id: nat)
    requires c.Valid() && id in c.live && c.live[id].port.Some?
    modifies c
    ensures c.Valid() && c.live == old(c.live) - {id}
    ensures c.memseg == Freed(old(c.memseg), old(c.live)[id].range.lo, old(c.live)[id].range.hi)
  {
    hide Inv, Freed, Owns, UndoOk;
    c.DestroyGroup(id);
  }

  lemma OtherQueuePair(g: Group, ip: nat, qpn: nat, other: nat)
    requires g.members == [Member(ip, qpn, 0)] && qpn != other
    ensures !Uses(g, ip, other)
  {
  }

  /** With no group live, identifiers and nodes are free. */
  lemma PoolsAreFull(kind: Kind, t: Topology, s: State)
    requires Inv(kind, t, s, map[])
    ensures s.freeGroup != [] && s.freeNode != []
  {
    hide MemoryOk, MembersOk, PortsOk, TablesOk;
    assert 1 in s.freeGroup && 1 in s.freeNode;
  }

  /** Three groups of one host, on a queue pair each, destroyed in the order first, third, second. */
  method SplitThoughFree() returns (c: Servicer, reply: Reply)
    ensures c.Valid() && c.live == map[] && forall x: nat :: FreeAt(c.memseg, x) <==> x < SWITCH_MEM_SIZE
    ensures c.freeGroup != [] && c.freeNode != [] && ValidSize(SWITCH_MEM_SIZE) && reply.NoResource?
  {
    hide Inv, Allocated, Freed, FreeAt, IsFirstFit, ValidSize, UndoOk, Uses, Servicer.Valid;
    c := new Servicer(Allreduce, Topology(map[1 := 0], [0]), 0);
    ThreeBlocks();
    ReleasedApart();
    Sizes();
    var first := Take(c, Member(1, 10, 0), MB, 0, 0);
    OtherQueuePair(c.live[first], 1, 10, 11);
    OtherQueuePair(c.live[first], 1, 10, 12);
    var second := Take(c, Member(1, 11, 0), MB, 0, MB);
    OtherQueuePair(c.live[second], 1, 11, 12);
    var third := Take(c, Member(1, 12, 0), 2 * MB, 0, 2 * MB);
    Give(c, first);
    Give(c, third);
    Give(c, second);
    assert c.live == map[];
    reply := Ask(c, Member(1, 10, 0));
  }

  /** A request for all of the memory, when no segment holds that much. */
  method Ask(c: Servicer, m: Member) returns (reply: Reply)
    requires c.Valid() && c.kind == Allreduce && c.live == map[] && m.ip in c.topology.ports
    requires IsFirstFit(c.memseg, SWITCH_MEM_SIZE, NoFit)
    modifies c
    ensures c.Valid() && c.live == map[] && c.memseg == old(c.memseg) && reply.NoResource?
    ensures c.freeGroup != [] && c.freeNode != []
  {
    FitIsUnique(c.memseg, SWITCH_MEM_SIZE, NoFit);
    hide Inv, IsFirstFit, ValidSize, Allocated, Uses, UndoOk, Admission;
    reply := c.CreateGroup([m], SWITCH_MEM_SIZE, 0);
    PoolsAreFull(c.kind, c.topology, c.Snapshot());
  }
}
