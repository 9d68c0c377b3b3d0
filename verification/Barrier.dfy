/** The TCP barrier among the ranks and the registration of connections at rank 0. */
module Barrier {
  import opened Paths

  // ---- The barrier -----------------------------------------------------------------------------

  /** Rank 0 first reads a byte from every other rank in turn, then writes one to each. The index is the
      next rank to read from or write to. */
  datatype Root = Out | Reading(next: nat) | Writing(next: nat)

  /** Any other rank writes its byte, then waits for one. */
  datatype Pc = Outside | Sending | Receiving

  /** `up` and `down` count the bytes in the two directions of each connection; all bytes are alike.
      `entered` and `returned` count a rank's barrier calls. Entries 0 of `pcs`, `up` and `down` are unused. */
  datatype State = State(root: Root, pcs: seq<Pc>, up: seq<nat>, down: seq<nat>, entered: seq<nat>, returned: seq<nat>)

  datatype Step =
    | Enter(r: nat)
    | Send(r: nat)
    | Receive(r: nat)
    | ReadByte
    | TurnAround
    | WriteByte
    | Return

  function Initial(n: nat): State
  {
    State(Out, seq(n, _ => Outside), seq(n, _ => 0), seq(n, _ => 0), seq(n, _ => 0), seq(n, _ => 0))
  }

  predicate Sized(n: nat, s: State)
  {
    n >= 1 && |s.pcs| == n && |s.up| == n && |s.down| == n && |s.entered| == n && |s.returned| == n
  }

  predicate Enabled(n: nat, s: State, step: Step)
    requires Sized(n, s)
  {
    match step
    case Enter(r) => r < n && if r == 0 then s.root == Out else s.pcs[r] == Outside
    case Send(r) => 1 <= r < n && s.pcs[r] == Sending
    case Receive(r) => 1 <= r < n && s.pcs[r] == Receiving && s.down[r] > 0
    case ReadByte => s.root.Reading? && s.root.next < n && s.up[s.root.next] > 0
    case TurnAround => s.root.Reading? && s.root.next >= n
    case WriteByte => s.root.Writing? && s.root.next < n
    case Return => s.root.Writing? && s.root.next >= n
  }

  function Apply(n: nat, s: State, step: Step): State
    requires Sized(n, s) && Enabled(n, s, step)
  {
    match step
    case Enter(r) =>
      var t := s.(entered := s.entered[r := s.entered[r] + 1]);
      if r == 0 then t.(root := Reading(1)) else t.(pcs := s.pcs[r := Sending])
    case Send(r) => s.(pcs := s.pcs[r := Receiving], up := s.up[r := s.up[r] + 1])
    case Receive(r) =>
      s.(pcs := s.pcs[r := Outside], down := s.down[r := s.down[r] - 1], returned := s.returned[r := s.returned[r] + 1])
    case ReadByte => s.(root := Reading(s.root.next + 1), up := s.up[s.root.next := s.up[s.root.next] - 1])
    case TurnAround => s.(root := Writing(1))
    case WriteByte => s.(root := Writing(s.root.next + 1), down := s.down[s.root.next := s.down[s.root.next] + 1])
    case Return => s.(root := Out, returned := s.returned[0 := s.returned[0] + 1])
  }

  ghost predicate Next(n: nat, s: State, s': State)
  {
    Sized(n, s) && exists step :: Enabled(n, s, step) && s' == Apply(n, s, step)
  }

  ghost function Steps(n: nat): (State, State) -> bool
  {
    (s, s') => Next(n, s, s')
  }

  ghost predicate Reachable(n: nat, s: State)
  {
    Reaches(Steps(n), Initial(n), s)
  }

  /** Bytes rank 0 has read from r, over all its calls. */
  function Got(s: State, r: nat): int
    requires s.entered != []
  {
    (s.entered[0] as int) - (if s.root.Reading? && r >= s.root.next then 1 else 0)
  }

  /** Bytes rank 0 has written to r, over all its calls. */
  function Wrote(s: State, r: nat): nat
    requires s.returned != []
  {
    s.returned[0] + (if s.root.Writing? && r < s.root.next then 1 else 0)
  }

  ghost predicate RankOk(s: State, r: nat)
    requires r < |s.pcs| == |s.up| == |s.down| == |s.entered| == |s.returned|
  {
    && s.entered[r] == s.returned[r] + (if s.pcs[r] == Outside then 0 else 1)
    && s.up[r] + Got(s, r) == s.entered[r] - (if s.pcs[r] == Sending then 1 else 0)
    && s.down[r] + s.returned[r] == Wrote(s, r)
  }

  ghost predicate Inv(n: nat, s: State)
  {
    && Sized(n, s)
    && s.entered[0] == s.returned[0] + (if s.root == Out then 0 else 1)
    && (s.root.Reading? || s.root.Writing? ==> 1 <= s.root.next <= n)
    && (forall r :: 1 <= r < n ==> RankOk(s, r))
  }

  lemma InitialInv(n: nat)
    requires n >= 1
    ensures Inv(n, Initial(n))
  {
  }

  /** Every step keeps the byte counts. */
  lemma {:induction false} StepKeeps(n: nat, s: State, step: Step)
    requires Inv(n, s) && Enabled(n, s, step)
    ensures Inv(n, Apply(n, s, step))
  {
    var s' := Apply(n, s, step);
    forall r | 1 <= r < n ensures RankOk(s', r) {
      assert RankOk(s, r);
    }
  }

  lemma ReachableInv(n: nat, s: State)
    requires n >= 1 && Reachable(n, s)
    ensures Inv(n, s)
  {
    InitialInv(n);
    forall a, b | Inv(n, a) && Steps(n)(a, b) ensures Inv(n, b) {
      var step :| Enabled(n, a, step) && b == Apply(n, a, step);
      StepKeeps(n, a, step);
    }
    ReachesKeeps(Steps(n), (x: State) => Inv(n, x), Initial(n), s);
  }

  /** No rank has returned from more calls than any rank has entered. */
  lemma {:induction false} NobodyLeavesEarly(n: nat, s: State, q: nat, r: nat)
    requires n >= 1 && Reachable(n, s) && q < n && r < n
    ensures |s.returned| == |s.entered| == n && s.returned[q] <= s.entered[r]
  {
    ReachableInv(n, s);
    assert q > 0 ==> RankOk(s, q);
    assert r > 0 ==> RankOk(s, r);
  }

  // ---- Progress --------------------------------------------------------------------------------

  /** Steps a rank still has to take in its current call. */
  function Left(pc: Pc): nat
  {
    match pc
    case Outside => 0
    case Sending => 2
    case Receiving => 1
  }

  function LeftAll(pcs: seq<Pc>): nat
  {
    if pcs == [] then 0 else LeftAll(pcs[..|pcs| - 1]) + Left(pcs[|pcs| - 1])
  }

  function RootLeft(n: nat, root: Root): nat
  {
    match root
    case Out => 0
    case Reading(k) => (if k < n then n - k else 0) + n + 2
    case Writing(k) => (if k < n then n - k else 0) + 1
  }

  lemma {:induction false} LeftAllUpdate(pcs: seq<Pc>, r: nat, pc: Pc)
    requires r < |pcs|
    ensures LeftAll(pcs[r := pc]) + Left(pcs[r]) == LeftAll(pcs) + Left(pc)
  {
    var n := |pcs| - 1;
    if r < n {
      LeftAllUpdate(pcs[..n], r, pc);
      assert pcs[r := pc][..n] == pcs[..n][r := pc];
    } else {
      assert pcs[r := pc][..n] == pcs[..n];
    }
  }

  /** Every step but a new call brings the calls under way closer to their end. */
  lemma {:induction false} StepsRunOut(n: nat, s: State, step: Step)
    requires Inv(n, s) && Enabled(n, s, step) && !step.Enter?
    ensures var s' := Apply(n, s, step);
            LeftAll(s'.pcs) + RootLeft(n, s'.root) < LeftAll(s.pcs) + RootLeft(n, s.root)
  {
    match step
    case Send(r) => LeftAllUpdate(s.pcs, r, Receiving);
    case Receive(r) => LeftAllUpdate(s.pcs, r, Outside);
    case _ =>
  }

  /** As long as somebody is inside a call that everybody has entered, some step other than a new call
      is possible. */
  lemma {:induction false} NobodyIsStuck(n: nat, s: State, q: nat) returns (step: Step)
    requires q < n && Inv(n, s) && s.returned[q] < s.entered[q]
    requires forall r :: 0 <= r < n ==> s.entered[q] <= s.entered[r]
    ensures Enabled(n, s, step) && !step.Enter?
  {
    assert q > 0 ==> RankOk(s, q);
    if q > 0 && s.pcs[q] == Sending {
      step := Send(q);
    } else if q > 0 && s.down[q] > 0 {
      step := Receive(q);
    } else if s.root.Reading? {
      var k := s.root.next;
      if k >= n {
        step := TurnAround;
      } else {
        assert RankOk(s, k);
        step := if s.up[k] > 0 then ReadByte else Send(k);
      }
    } else {
      step := if s.root.next < n then WriteByte else Return;
    }
  }

  // ---- Registration ----------------------------------------------------------------------------

  const NO_FD: int := -1

  /** An accepted connection and the rank the client sent over it. */
  datatype Connection = Connection(fd: nat, rank: int)

  /** The clients are the ranks 1..n-1, each once. */
  ghost predicate Complete(clients: seq<Connection>, n: nat)
  {
    && (forall i :: 0 <= i < |clients| ==> 0 < clients[i].rank < n)
    && (forall i, j :: 0 <= i < j < |clients| ==> clients[i].rank != clients[j].rank)
  }

  ghost function RanksUpTo(n: nat): (s: set<int>)
    ensures forall r: int :: r in s <==> 1 <= r <= n
    ensures |s| == n
  {
    if n == 0 then {} else RanksUpTo(n - 1) + {n}
  }

  ghost predicate Connected(clients: seq<Connection>, r: int)
  {
    exists i :: 0 <= i < |clients| && clients[i].rank == r
  }

  ghost function RankSet(clients: seq<Connection>): set<int>
  {
    if clients == [] then {} else RankSet(clients[..|clients| - 1]) + {clients[|clients| - 1].rank}
  }

  lemma {:induction false} RankSetExact(clients: seq<Connection>, r: int)
    ensures r in RankSet(clients) <==> Connected(clients, r)
  {
    if clients != [] {
      var k := |clients| - 1;
      RankSetExact(clients[..k], r);
      assert clients[k].rank == r ==> Connected(clients, r);
      if i :| 0 <= i < k && clients[i].rank == r { assert clients[..k][i].rank == r; }
      if i :| 0 <= i < k && clients[..k][i].rank == r { assert clients[i].rank == r; }
    }
  }

  lemma {:induction false} RankSetSize(clients: seq<Connection>, n: nat)
    requires Complete(clients, n)
    ensures |RankSet(clients)| == |clients|
  {
    if clients != [] {
      var k := |clients| - 1;
      RankSetSize(clients[..k], n);
      RankSetExact(clients[..k], clients[k].rank);
    }
  }

  lemma SubsetOfSameSize(a: set<int>, b: set<int>)
    requires a <= b && |a| == |b|
    ensures a == b
  {
    assert |b - a| == 0 by { assert b == a + (b - a); }
  }

  /** As many distinct ranks as there are ranks leave none out. */
  lemma {:induction false} EveryRankConnects(clients: seq<Connection>, n: nat, r: int)
    requires n >= 1 && |clients| == n - 1 && Complete(clients, n) && 1 <= r < n
    ensures Connected(clients, r)
  {
    RankSetSize(clients, n);
    forall q | q in RankSet(clients) ensures q in RanksUpTo(n - 1) { RankSetExact(clients, q); }
    SubsetOfSameSize(RankSet(clients), RanksUpTo(n - 1));
    RankSetExact(clients, r);
  }

  /** The table holds the connections of these clients and nothing else. */
  ghost predicate Registered(fds: seq<int>, clients: seq<Connection>)
  {
    && Complete(clients, |fds|)
    && (forall i :: 0 <= i < |clients| ==> fds[clients[i].rank] == clients[i].fd)
    && (forall r :: 0 <= r < |fds| && fds[r] != NO_FD ==> Connected(clients, r))
  }

  lemma RegisterNext(fds: seq<int>, clients: seq<Connection>, c: Connection)
    requires Registered(fds, clients) && 0 < c.rank < |fds|
    ensures fds[c.rank] == NO_FD ==> Registered(fds[c.rank := c.fd], clients + [c])
    ensures fds[c.rank] != NO_FD ==> !Complete(clients + [c], |fds|)
  {
    var all := clients + [c];
    if fds[c.rank] != NO_FD {
      var i :| 0 <= i < |clients| && clients[i].rank == c.rank;
      assert all[i].rank == all[|clients|].rank;
    } else {
      var after := fds[c.rank := c.fd];
      assert all[|clients|] == c;
      forall r | 0 <= r < |after| && after[r] != NO_FD ensures Connected(all, r) {
        if r != c.rank {
          var i :| 0 <= i < |clients| && clients[i].rank == r;
          assert all[i] == clients[i];
        }
      }
    }
  }

  lemma PrefixComplete(clients: seq<Connection>, k: nat, n: nat)
    requires k <= |clients|
    ensures Complete(clients, n) ==> Complete(clients[..k], n)
  {
  }

  /** Rank 0 accepts n - 1 connections. It goes on exactly when they come from the ranks 1..n-1, one each,
      and then has for every rank the connection of the one client that sent it. */
  method Gather(n: nat, clients: seq<Connection>, rankFd: array<int>) returns (ok: bool)
    requires n >= 1 && |clients| == n - 1 && rankFd.Length == n
    modifies rankFd
    ensures ok <==> Complete(clients, n)
    ensures ok ==> Registered(rankFd[..], clients)
    ensures ok ==> forall r :: 1 <= r < n ==> Connected(clients, r)
  {
    for r := 0 to n
      invariant forall j :: 0 <= j < r ==> rankFd[j] == NO_FD
    {
      rankFd[r] := NO_FD;
    }
    assert clients[..0] == [];
    for k := 0 to n - 1
      invariant Registered(rankFd[..], clients[..k])
    {
      hide Registered, Complete;
      var c := clients[k];
      assert |rankFd[..]| == n;
      assert clients[..k + 1] == clients[..k] + [c];
      if !(0 < c.rank < n) {
        OutOfRange(clients, k, n);
        return false;
      }
      RegisterNext(rankFd[..], clients[..k], c);
      PrefixComplete(clients, k + 1, n);
      if rankFd[c.rank] != NO_FD { return false; }
      ghost var before := rankFd[..];
      rankFd[c.rank] := c.fd;
      assert rankFd[..] == before[c.rank := c.fd];
    }
    assert clients[..n - 1] == clients;
    forall r | 1 <= r < n ensures Connected(clients, r) {
      EveryRankConnects(clients, n, r);
    }
    ok := true;
  }

  lemma OutOfRange(clients: seq<Connection>, k: nat, n: nat)
    requires k < |clients| && !(0 < clients[k].rank < n)
    ensures !Complete(clients, n)
  {
  }
}
