/** The collective groups a controller keeps: what a group installs in the switch, what its undo log holds,
    and what running the log backwards does. One model covers the allreduce, reduce and broadcast controllers. */
module Groups {
  import opened Options
  import opened Bitmaps
  import opened Segments

  datatype Kind = Allreduce | Reduce | Broadcast

  datatype Member = Member(ip: nat, qpn: nat, rkey: nat)

  /** `range` is empty and `port` absent for a broadcast group, which uses no aggregation memory. */
  datatype Group = Group(id: nat, members: seq<Member>, root: nat, nodes: seq<nat>, range: Segment, port: Option<nat>)

  /** Where addresses are attached, and the recirculation ports. */
  datatype Topology = Topology(ports: map<nat, nat>, recirculation: seq<nat>)

  // ---- Table entries ---------------------------------------------------------------------------

  datatype Key =
    | RecirculateKey(group: nat)
    | RootUnicastKey(group: nat)
    | MetadataKey(ip: nat, qpn: nat)
    | RestoreKey(group: nat, rank: nat, reth: bool)
    | NodeKey(node: nat)
    | MulticastKey(group: nat)

  datatype Entry =
    | Forward(port: nat)
    | Aggregate(group: nat, rank: nat, root: Option<nat>, bitmap: Bitmap, mask: Bitmap, address: nat, offsetMask: nat)
    | BroadcastRoot(group: nat, rank: nat)
    | BroadcastAck(group: nat, rank: nat, source: nat, bitmap: Bitmap, mask: Bitmap)
    | Restore(ip: nat, qpn: nat, rkey: Option<nat>)
    | Replica(rank: nat, port: nat)
    | Replicas(nodes: seq<nat>)

  type Install = (Key, Entry)

  ghost predicate WellFormed(kind: Kind, t: Topology, g: Group)
  {
    && |g.members| == |g.nodes| <= WIDTH
    && (kind != Allreduce ==> g.root < |g.members|)
    && (forall i :: 0 <= i < |g.members| ==> g.members[i].ip in t.ports)
    && (kind == Broadcast ==> g.range == Segment(0, 0) && g.port == None)
    && (kind != Broadcast ==>
          && g.range.lo < g.range.hi && ValidSize(g.range.hi - g.range.lo)
          && Multiple(g.range.lo, g.range.hi - g.range.lo)
          && g.port.Some? && g.port.value < |t.recirculation|)
  }

  function MetadataOf(kind: Kind, g: Group, i: nat): Entry
    requires kind != Broadcast ==> g.range.lo + MTU_SIZE <= g.range.hi
  {
    var n := |g.members|;
    match kind
    case Allreduce =>
      Aggregate(g.id, i, None, Bit(i), Mask(n), g.range.lo / MTU_SIZE, (g.range.hi - g.range.lo) / MTU_SIZE - 1)
    case Reduce =>
      Aggregate(g.id, i, Some(g.root), Bit(i), RootMask(n, g.root), g.range.lo / MTU_SIZE,
                (g.range.hi - g.range.lo) / MTU_SIZE - 1)
    case Broadcast =>
      if i == g.root then BroadcastRoot(g.id, i) else BroadcastAck(g.id, i, g.root, Bit(i), RootMask(n, g.root))
  }

  /** Entries of the group itself, installed before its members. */
  function Header(kind: Kind, t: Topology, g: Group): seq<Install>
    requires WellFormed(kind, t, g)
  {
    (if kind == Broadcast then [] else [(RecirculateKey(g.id), Forward(t.recirculation[g.port.value]))])
    + (if kind == Allreduce then [] else [(RootUnicastKey(g.id), Forward(t.ports[g.members[g.root].ip]))])
  }

  /** Entries of member i. A reduce root is not a multicast target. */
  function Own(kind: Kind, t: Topology, g: Group, i: nat): seq<Install>
    requires WellFormed(kind, t, g) && i < |g.members|
  {
    var m := g.members[i];
    [(MetadataKey(m.ip, m.qpn), MetadataOf(kind, g, i)),
     (RestoreKey(g.id, i, true), Restore(m.ip, m.qpn, Some(m.rkey))),
     (RestoreKey(g.id, i, false), Restore(m.ip, m.qpn, None))]
    + (if kind == Reduce && i == g.root then [] else [(NodeKey(g.nodes[i]), Replica(i, t.ports[m.ip]))])
  }

  function Members(kind: Kind, t: Topology, g: Group, n: nat): seq<Install>
    requires WellFormed(kind, t, g) && n <= |g.members|
  {
    if n == 0 then [] else Members(kind, t, g, n - 1) + Own(kind, t, g, n - 1)
  }

  function Targets(kind: Kind, g: Group): seq<nat>
    requires kind == Reduce ==> g.root < |g.nodes|
  {
    if kind == Reduce then g.nodes[..g.root] + g.nodes[g.root + 1..] else g.nodes
  }

  /** Everything the group installs, in order. */
  function Installs(kind: Kind, t: Topology, g: Group): seq<Install>
    requires WellFormed(kind, t, g)
  {
    Header(kind, t, g) + Members(kind, t, g, |g.members|) + [(MulticastKey(g.id), Replicas(Targets(kind, g)))]
  }

  ghost predicate HasKey(l: seq<Install>, k: Key)
  {
    exists j :: 0 <= j < |l| && l[j].0 == k
  }

  ghost predicate Distinct<T(!new)>(s: seq<T>)
  {
    forall i, j :: 0 <= i < j < |s| ==> s[i] != s[j]
  }

  ghost predicate DistinctKeys(l: seq<Install>)
  {
    forall i, j :: 0 <= i < j < |l| ==> l[i].0 != l[j].0
  }

  ghost predicate DistinctMembers(g: Group)
  {
    forall i, j :: 0 <= i < j < |g.members| ==>
      (g.members[i].ip, g.members[i].qpn) != (g.members[j].ip, g.members[j].qpn)
  }

  /** Which keys are a group's, said without reference to the installation loop. */
  ghost predicate Owns(kind: Kind, g: Group, n: nat, k: Key)
    requires n <= |g.members| == |g.nodes|
  {
    match k
    case RecirculateKey(id) => kind != Broadcast && id == g.id
    case RootUnicastKey(id) => kind != Allreduce && id == g.id
    case MetadataKey(ip, qpn) => exists i :: 0 <= i < n && g.members[i].ip == ip && g.members[i].qpn == qpn
    case RestoreKey(id, rank, _) => id == g.id && rank < n
    case NodeKey(x) => exists i :: 0 <= i < n && g.nodes[i] == x && !(kind == Reduce && i == g.root)
    case MulticastKey(id) => id == g.id
  }

  lemma HasKeyJoin(a: seq<Install>, b: seq<Install>, k: Key)
    ensures HasKey(a + b, k) <==> HasKey(a, k) || HasKey(b, k)
  {
    assert forall j :: 0 <= j < |a| ==> (a + b)[j] == a[j];
    assert forall j :: 0 <= j < |b| ==> (a + b)[|a| + j] == b[j];
  }

  ghost predicate PerMember(k: Key)
  {
    k.MetadataKey? || k.RestoreKey? || k.NodeKey?
  }

  lemma OwnKeys(kind: Kind, t: Topology, g: Group, i: nat, k: Key)
    requires WellFormed(kind, t, g) && i < |g.members|
    ensures HasKey(Own(kind, t, g, i), k) <==>
            || k == MetadataKey(g.members[i].ip, g.members[i].qpn)
            || k == RestoreKey(g.id, i, true) || k == RestoreKey(g.id, i, false)
            || (k == NodeKey(g.nodes[i]) && !(kind == Reduce && i == g.root))
  {
    var l := Own(kind, t, g, i);
    assert l[0].0 == MetadataKey(g.members[i].ip, g.members[i].qpn);
    assert l[1].0 == RestoreKey(g.id, i, true) && l[2].0 == RestoreKey(g.id, i, false);
    if !(kind == Reduce && i == g.root) { assert l[3].0 == NodeKey(g.nodes[i]); }
  }

  lemma {:induction false} MemberKeys(kind: Kind, t: Topology, g: Group, n: nat, k: Key)
    requires WellFormed(kind, t, g) && n <= |g.members|
    ensures HasKey(Members(kind, t, g, n), k) <==> PerMember(k) && Owns(kind, g, n, k)
  {
    if n > 0 {
      hide Own, HasKey, ValidSize, Multiple;
      MemberKeys(kind, t, g, n - 1, k);
      HasKeyJoin(Members(kind, t, g, n - 1), Own(kind, t, g, n - 1), k);
      OwnKeys(kind, t, g, n - 1, k);
    }
  }

  lemma HeaderKeys(kind: Kind, t: Topology, g: Group, k: Key)
    requires WellFormed(kind, t, g)
    ensures HasKey(Header(kind, t, g), k) <==>
            (kind != Broadcast && k == RecirculateKey(g.id)) || (kind != Allreduce && k == RootUnicastKey(g.id))
  {
    var l := Header(kind, t, g);
    if kind != Broadcast { assert l[0].0 == RecirculateKey(g.id); }
    if kind != Allreduce { assert l[|l| - 1].0 == RootUnicastKey(g.id); }
  }

  /** The installation loop installs exactly the group's keys. */
  lemma {:induction false} InstallsExactly(kind: Kind, t: Topology, g: Group, k: Key)
    requires WellFormed(kind, t, g)
    ensures HasKey(Installs(kind, t, g), k) <==> Owns(kind, g, |g.members|, k)
  {
    var last := [(MulticastKey(g.id), Replicas(Targets(kind, g)))];
    HeaderKeys(kind, t, g, k);
    MemberKeys(kind, t, g, |g.members|, k);
    HasKeyJoin(Header(kind, t, g), Members(kind, t, g, |g.members|), k);
    HasKeyJoin(Header(kind, t, g) + Members(kind, t, g, |g.members|), last, k);
    assert last[0].0 == MulticastKey(g.id);
  }

  lemma DistinctJoin(a: seq<Install>, b: seq<Install>)
    requires DistinctKeys(a) && DistinctKeys(b) && forall j :: 0 <= j < |b| ==> !HasKey(a, b[j].0)
    ensures DistinctKeys(a + b)
  {
    forall i, j | 0 <= i < j < |a + b| ensures (a + b)[i].0 != (a + b)[j].0 {
      if i < |a| <= j { assert !HasKey(a, b[j - |a|].0); }
    }
  }

  lemma {:induction false} MembersDistinct(kind: Kind, t: Topology, g: Group, n: nat)
    requires WellFormed(kind, t, g) && n <= |g.members| && DistinctMembers(g) && Distinct(g.nodes)
    ensures DistinctKeys(Members(kind, t, g, n))
  {
    if n > 0 {
      var own := Own(kind, t, g, n - 1);
      MembersDistinct(kind, t, g, n - 1);
      OwnDistinct(kind, t, g, n - 1);
      forall j | 0 <= j < |own| ensures !HasKey(Members(kind, t, g, n - 1), own[j].0) {
        OwnIsNew(kind, t, g, n - 1, j);
      }
      hide Own, HasKey, DistinctKeys;
      DistinctJoin(Members(kind, t, g, n - 1), own);
    }
  }

  lemma OwnDistinct(kind: Kind, t: Topology, g: Group, i: nat)
    requires WellFormed(kind, t, g) && i < |g.members|
    ensures DistinctKeys(Own(kind, t, g, i))
  {
    hide MetadataOf, ValidSize, Multiple;
  }

  /** A member's keys are none of an earlier member's. */
  lemma OwnIsNew(kind: Kind, t: Topology, g: Group, i: nat, j: nat)
    requires WellFormed(kind, t, g) && i < |g.members| && DistinctMembers(g) && Distinct(g.nodes)
    requires j < |Own(kind, t, g, i)|
    ensures !HasKey(Members(kind, t, g, i), Own(kind, t, g, i)[j].0)
  {
    hide MetadataOf, ValidSize, Multiple, Members, HasKey;
    MemberKeys(kind, t, g, i, Own(kind, t, g, i)[j].0);
  }

  lemma {:induction false} InstallsDistinct(kind: Kind, t: Topology, g: Group)
    requires WellFormed(kind, t, g) && DistinctMembers(g) && Distinct(g.nodes)
    ensures DistinctKeys(Installs(kind, t, g))
  {
    var header, members := Header(kind, t, g), Members(kind, t, g, |g.members|);
    var last: seq<Install> := [(MulticastKey(g.id), Replicas(Targets(kind, g)))];
    MembersDistinct(kind, t, g, |g.members|);
    forall j | 0 <= j < |members| ensures !HasKey(header, members[j].0) {
      MemberKeys(kind, t, g, |g.members|, members[j].0);
      HeaderKeys(kind, t, g, members[j].0);
    }
    DistinctJoin(header, members);
    assert !HasKey(header + members, last[0].0) by {
      HasKeyJoin(header, members, last[0].0);
      HeaderKeys(kind, t, g, last[0].0);
      MemberKeys(kind, t, g, |g.members|, last[0].0);
    }
    DistinctJoin(header + members, last);
  }

  /** Where member i's entries are in the whole list. */
  lemma {:induction false} Block(kind: Kind, t: Topology, g: Group, i: nat)
    requires WellFormed(kind, t, g) && i < |g.members|
    ensures var (all, own) := (Installs(kind, t, g), Own(kind, t, g, i));
            var d := |Header(kind, t, g) + Members(kind, t, g, i)|;
            && d + |own| < |all| && all[d..d + |own|] == own
            && d + |own| == |Header(kind, t, g) + Members(kind, t, g, i + 1)|
  {
    assert kind == Reduce ==> g.root < |g.nodes|;
    hide Header, Own, WellFormed;
    Prefix(kind, t, g, i + 1, |g.members|);
    var header, members, next := Header(kind, t, g), Members(kind, t, g, |g.members|), Members(kind, t, g, i + 1);
    var a, own := header + Members(kind, t, g, i), Own(kind, t, g, i);
    assert next == Members(kind, t, g, i) + own;
    assert a + own == header + next;
    PrefixJoin(header, next, members, [(MulticastKey(g.id), Replicas(Targets(kind, g)))]);
    PrefixSlice(a, own, Installs(kind, t, g));
  }

  lemma PrefixSlice(a: seq<Install>, b: seq<Install>, all: seq<Install>)
    requires a + b <= all
    ensures all[|a|..|a| + |b|] == b
  {
    assert all == (a + b) + all[|a + b|..];
  }

  lemma PrefixJoin(a: seq<Install>, b: seq<Install>, c: seq<Install>, d: seq<Install>)
    requires b <= c
    ensures a + b <= a + c + d && (d != [] ==> |a + b| < |a + c + d|)
  {
  }

  lemma {:induction false} Prefix(kind: Kind, t: Topology, g: Group, i: nat, n: nat)
    requires WellFormed(kind, t, g) && i <= n <= |g.members|
    ensures Members(kind, t, g, i) <= Members(kind, t, g, n)
  {
    if i < n { Prefix(kind, t, g, i, n - 1); }
  }

  /** The members' entries are followed by one more. */
  lemma InstallsShape(kind: Kind, t: Topology, g: Group)
    requires WellFormed(kind, t, g)
    ensures var (all, n) := (Installs(kind, t, g), |Header(kind, t, g) + Members(kind, t, g, |g.members|)|);
            |all| == n + 1 && all[n] == (MulticastKey(g.id), Replicas(Targets(kind, g)))
    ensures var (all, h) := (Installs(kind, t, g), Header(kind, t, g));
            && |h| <= |all| && (forall j :: 0 <= j < |h| ==> all[j] == h[j])
            && Header(kind, t, g) + Members(kind, t, g, 0) == h
  {
  }

  // ---- The undo log ----------------------------------------------------------------------------

  datatype Command =
    | FreeSegment(lo: nat, hi: nat)
    | ReturnGroup(id: nat)
    | ReturnNodes(nodes: seq<nat>)
    | DecrementPort(index: nat)
    | Delete(key: Key)

  /** The controller's resources and the switch's tables. `exited` records the "Invalid free" exit. */
  datatype State = State(freeGroup: seq<nat>, freeNode: seq<nat>, portCount: seq<int>, memseg: seq<Segment>,
                         tables: map<Key, Entry>, exited: bool)

  function Run(s: State, c: Command): State
  {
    match c
    case FreeSegment(lo, hi) =>
      if Rejected(s.memseg, lo, hi) then s.(exited := true) else s.(memseg := Freed(s.memseg, lo, hi))
    case ReturnGroup(id) => s.(freeGroup := s.freeGroup + [id])
    case ReturnNodes(nodes) => s.(freeNode := s.freeNode + nodes)
    case DecrementPort(i) => if i < |s.portCount| then s.(portCount := s.portCount[i := s.portCount[i] - 1]) else s
    case Delete(key) => s.(tables := s.tables - {key})
  }

  /** The commands from last to first. */
  function RunBack(s: State, log: seq<Command>): State
    decreases |log|
  {
    if log == [] then s else RunBack(Run(s, log[|log| - 1]), log[..|log| - 1])
  }

  function Resources(g: Group): seq<Command>
  {
    (if g.port.Some? then [FreeSegment(g.range.lo, g.range.hi)] else []) + [ReturnGroup(g.id), ReturnNodes(g.nodes)]
    + (if g.port.Some? then [DecrementPort(g.port.value)] else [])
  }

  function Deletes(l: seq<Install>): seq<Command>
  {
    seq(|l|, j requires 0 <= j < |l| => Delete(l[j].0))
  }

  function UndoLog(kind: Kind, t: Topology, g: Group): seq<Command>
    requires WellFormed(kind, t, g)
  {
    Resources(g) + Deletes(Installs(kind, t, g))
  }

  /** The tables after the installs, in order. */
  function AddAll(tables: map<Key, Entry>, l: seq<Install>): map<Key, Entry>
  {
    if l == [] then tables
    else AddAll(tables, l[..|l| - 1])[l[|l| - 1].0 := l[|l| - 1].1]
  }

  lemma {:induction false} AddAllKeys(tables: map<Key, Entry>, l: seq<Install>, k: Key)
    ensures k in AddAll(tables, l) <==> k in tables || HasKey(l, k)
    ensures !HasKey(l, k) && k in tables ==> AddAll(tables, l)[k] == tables[k]
  {
    if l != [] {
      AddAllKeys(tables, l[..|l| - 1], k);
      assert l == l[..|l| - 1] + [l[|l| - 1]];
      HasKeyJoin(l[..|l| - 1], [l[|l| - 1]], k);
      assert [l[|l| - 1]][0] == l[|l| - 1];
    }
  }

  lemma {:induction false} AddAllValues(tables: map<Key, Entry>, l: seq<Install>, j: nat)
    requires DistinctKeys(l) && j < |l|
    ensures l[j].0 in AddAll(tables, l) && AddAll(tables, l)[l[j].0] == l[j].1
  {
    if j < |l| - 1 { AddAllValues(tables, l[..|l| - 1], j); }
  }

  lemma {:induction false} RunDeletes(s: State, l: seq<Install>)
    ensures RunBack(s, Deletes(l)) == s.(tables := RunBack(s, Deletes(l)).tables)
    ensures forall k :: k in RunBack(s, Deletes(l)).tables <==> k in s.tables && !HasKey(l, k)
    ensures forall k :: k in RunBack(s, Deletes(l)).tables ==> RunBack(s, Deletes(l)).tables[k] == s.tables[k]
    decreases |l|
  {
    if l == [] {
      assert Deletes(l) == [];
    } else {
      var p, last := l[..|l| - 1], l[|l| - 1];
      assert Deletes(l)[..|l| - 1] == Deletes(p) && Deletes(l)[|l| - 1] == Delete(last.0);
      RunDeletes(Run(s, Delete(last.0)), p);
      forall k ensures HasKey(l, k) <==> HasKey(p, k) || k == last.0 {
        assert l == p + [last] && [last][0] == last;
        HasKeyJoin(p, [last], k);
      }
    }
  }

  lemma {:induction false} RunBackJoin(s: State, a: seq<Command>, b: seq<Command>)
    ensures RunBack(s, a + b) == RunBack(RunBack(s, b), a)
    decreases |b|
  {
    if b == [] {
      assert a + b == a;
    } else {
      hide Run, RunBack;
      var n := |b| - 1;
      assert b == b[..n] + [b[n]] && a + b == (a + b[..n]) + [b[n]];
      RunBackLast(s, b[..n], b[n]);
      RunBackLast(s, a + b[..n], b[n]);
      RunBackJoin(Run(s, b[n]), a, b[..n]);
    }
  }

  lemma RunBackLast(s: State, log: seq<Command>, last: Command)
    ensures RunBack(s, log + [last]) == RunBack(Run(s, last), log)
  {
    hide Run;
    assert (log + [last])[..|log|] == log;
  }

  lemma RunResources(s: State, g: Group)
    requires g.port.Some? ==> g.port.value < |s.portCount| && !Rejected(s.memseg, g.range.lo, g.range.hi)
    ensures RunBack(s, Resources(g)) == s.(
                freeGroup := s.freeGroup + [g.id], freeNode := s.freeNode + g.nodes,
                portCount :=
                  if g.port.Some? then s.portCount[g.port.value := s.portCount[g.port.value] - 1] else s.portCount,
                memseg := if g.port.Some? then Freed(s.memseg, g.range.lo, g.range.hi) else s.memseg)
  {
    ResourcesShape(g);
    hide RunBack, Resources, Freed, Rejected;
    if g.port.Some? {
      RunFour(s, FreeSegment(g.range.lo, g.range.hi), ReturnGroup(g.id),
              ReturnNodes(g.nodes), DecrementPort(g.port.value));
    } else {
      RunTwo(s, ReturnGroup(g.id), ReturnNodes(g.nodes));
    }
  }

  lemma ResourcesShape(g: Group)
    ensures Resources(g) ==
            if g.port.Some? then
              [FreeSegment(g.range.lo, g.range.hi), ReturnGroup(g.id), ReturnNodes(g.nodes),
               DecrementPort(g.port.value)]
            else [ReturnGroup(g.id), ReturnNodes(g.nodes)]
  {
  }

  lemma RunOne(s: State, a: Command)
    ensures RunBack(s, [a]) == Run(s, a)
  {
    var log := [a];
    assert log[..0] == [];
  }

  lemma RunTwo(s: State, a: Command, b: Command)
    ensures RunBack(s, [a, b]) == Run(Run(s, b), a)
  {
    var log := [a, b];
    assert log[..1] == [a];
    RunOne(Run(s, b), a);
  }

  lemma RunFour(s: State, a: Command, b: Command, c: Command, d: Command)
    ensures RunBack(s, [a, b, c, d]) == Run(Run(Run(Run(s, d), c), b), a)
  {
    hide Run;
    assert [a, b, c, d] == [a, b] + [c, d];
    RunBackJoin(s, [a, b], [c, d]);
    RunTwo(s, c, d);
    RunTwo(RunBack(s, [c, d]), a, b);
  }

  /** Exactly g's entries are gone from the tables, and exactly its resources are back. */
  ghost predicate Undone(kind: Kind, s: State, g: Group, after: State)
    requires |g.members| == |g.nodes| && (g.port.Some? ==> g.port.value < |s.portCount|)
  {
    && (forall k :: k in after.tables <==> k in s.tables && !Owns(kind, g, |g.members|, k))
    && (forall k :: k in after.tables ==> after.tables[k] == s.tables[k])
    && after.freeGroup == s.freeGroup + [g.id] && after.freeNode == s.freeNode + g.nodes
    && after.portCount ==
       (if g.port.Some? then s.portCount[g.port.value := s.portCount[g.port.value] - 1] else s.portCount)
    && after.memseg == (if g.port.Some? then Freed(s.memseg, g.range.lo, g.range.hi) else s.memseg)
    && after.exited == s.exited
  }

  /** What running a group's log backwards does. */
  lemma {:induction false} UndoExactly(kind: Kind, t: Topology, g: Group, s: State)
    requires WellFormed(kind, t, g)
    requires g.port.Some? ==> g.port.value < |s.portCount| && !Rejected(s.memseg, g.range.lo, g.range.hi)
    ensures Undone(kind, s, g, RunBack(s, UndoLog(kind, t, g)))
  {
    var l := Installs(kind, t, g);
    RunBackJoin(s, Resources(g), Deletes(l));
    RunDeletes(s, l);
    RunResources(RunBack(s, Deletes(l)), g);
    forall k ensures HasKey(l, k) <==> Owns(kind, g, |g.members|, k) { InstallsExactly(kind, t, g, k); }
  }
}
