/** Every arrival order of the hosts' packets is that of some run, so the condition under which saturating
    addition is exact is the condition under which the group's results are. */
module ProtocolOrder {
  import opened Paths
  import opened SwitchPipeline
  import Saturation
  import opened Reduction
  import opened Protocol
  import opened ProtocolInvariant
  import opened ProtocolSafety
  import opened ProtocolProgress

  /** Everybody has exactly p results and has posted position p, and the uplinks are empty. */
  ghost predicate Poised(c: Config, s: System, p: nat)
  {
    |s.hosts| == c.n &&
    forall r :: 0 <= r < c.n ==>
      s.hosts[r].acked <= |s.hosts[r].results| == p < s.hosts[r].posted && s.hosts[r].up == []
  }

  /** Host r's packet for position p is sent and reaches the switch. */
  lemma ArriveNext(c: Config, s: System, p: nat, r: nat) returns (s': System)
    requires Inv(c, s) && Poised(c, s, p) && r < c.n && !c.empty(p) && r !in Order(s.order, p)
    ensures Inv(c, s') && Reaches(Steps(c), s, s') && Poised(c, s', p)
    ensures Order(s'.order, p) == Order(s.order, p) + [r]
  {
    hide HistoryOk, HostOk, LoopOk, SlotsOk, FirstPass, Reaches;
    var m := Apply(c, s, Transmit(r, p));
    StepKeepsInv(c, s, Transmit(r, p));
    RunStep(c, s, Transmit(r, p));
    s' := Apply(c, m, First(r));
    StepKeepsInv(c, m, First(r));
    RunStep(c, m, First(r));
    ReachesTrans(Steps(c), s, m, s');
  }

  lemma {:induction false} ArriveInOrder(c: Config, s: System, p: nat, order: seq<nat>) returns (s': System)
    requires Inv(c, s) && Poised(c, s, p) && !c.empty(p) && Order(s.order, p) == []
    requires NoRepeat(order) && forall r :: r in order ==> r < c.n
    ensures Inv(c, s') && Reaches(Steps(c), s, s') && Poised(c, s', p) && Order(s'.order, p) == order
  {
    if order == [] {
      s' := s;
      ReachesSelf(Steps(c), s);
    } else {
      var front, last := order[..|order| - 1], order[|order| - 1];
      FrontOf(order, c.n);
      hide Inv, Reaches, Poised, NoRepeat, Order;
      var m := ArriveInOrder(c, s, p, front);
      s' := ArriveNext(c, m, p, last);
      ReachesTrans(Steps(c), s, m, s');
    }
  }

  lemma FrontOf(order: seq<nat>, n: nat)
    requires order != [] && NoRepeat(order) && forall r :: r in order ==> r < n
    ensures var (front, last) := (order[..|order| - 1], order[|order| - 1]);
            && NoRepeat(front) && (forall r :: r in front ==> r < n)
            && last < n && last !in front && order == front + [last]
  {
    var front := order[..|order| - 1];
    assert order == front + [order[|order| - 1]];
    assert order[|order| - 1] in order;
    forall r | r in front ensures r < n { assert r in order; }
    forall i | 0 <= i < |front| ensures front[i] != order[|order| - 1] { assert front[i] == order[i]; }
  }

  /** Once everybody has contributed, the order is settled. */
  lemma StepKeepsOrder(c: Config, s: System, step: Step, p: nat)
    requires Inv(c, s) && Enabled(c, s, step) && Full(c, s.order, p)
    ensures Order(Apply(c, s, step).order, p) == Order(s.order, p)
  {
    hide HistoryOk, HostOk, LoopOk, SlotsOk, FirstPass, SecondPass;
  }

  lemma OrderIsSettled(c: Config, s: System, s': System, p: nat)
    requires Inv(c, s) && Full(c, s.order, p) && Reaches(Steps(c), s, s')
    ensures Order(s'.order, p) == Order(s.order, p)
  {
    var inv := (t: System) => Inv(c, t) && Order(t.order, p) == Order(s.order, p);
    hide Inv, Reaches;
    forall a, b | inv(a) && Steps(c)(a, b) ensures inv(b) {
      var step :| Enabled(c, a, step) && b == Apply(c, a, step);
      assert |a.slots| == c.Slots();
      StepKeepsInv(c, a, step);
      StepKeepsOrder(c, a, step, p);
    }
    ReachesKeeps(Steps(c), inv, s, s');
  }

  /** Everybody has finished the positions before p, posted no more, and nothing is on its way. */
  lemma ReachCaughtUp(c: Config, p: nat) returns (s: System)
    requires Valid(c) && forall q: nat :: q < p ==> !c.empty(q)
    ensures Reachable(c, s) && Inv(c, s) && |s.hosts| == c.n && Idle(s)
    ensures forall r :: 0 <= r < c.n ==> p <= |s.hosts[r].results| && s.hosts[r].posted == p
  {
    InitialInv(c);
    hide Inv, Reaches, CanMove, HostOk;
    var a := Advance(c, Initial(c), 0, p, c.n);
    s := Drain(c, a);
    CarryForward(c, a, s);
    CarryIsMove(c, a, s);
    MovesAreRuns(c, a, s);
    ReachesTrans(Steps(c), Initial(c), a, s);
    hide Contributing, Destined;
  }

  /** Then everybody posts p, to which nobody has contributed. */
  lemma ReachPoised(c: Config, p: nat) returns (s: System)
    requires Valid(c) && forall q: nat :: q < p ==> !c.empty(q)
    ensures Reachable(c, s) && Inv(c, s) && Poised(c, s, p) && Order(s.order, p) == []
  {
    var b := ReachCaughtUp(c, p);
    hide Inv, Reaches, CanMove, Order;
    var d := AckAll(c, b, c.n, c.n);
    MovesAreRuns(c, b, d);
    CaughtUp(c, d, p);
    s := OpenAll(c, d, p, c.n);
    ReachesTrans(Steps(c), Initial(c), b, d);
    ReachesTrans(Steps(c), Initial(c), d, s);
  }

  lemma CaughtUp(c: Config, s: System, p: nat)
    requires Inv(c, s)
    requires forall r :: 0 <= r < c.n ==> p <= |s.hosts[r].results| == s.hosts[r].acked && s.hosts[r].posted == p
    ensures forall r :: 0 <= r < c.n ==> |s.hosts[r].results| == p
    ensures Order(s.order, p) == []
  {
    forall r: nat | r < c.n ensures |s.hosts[r].results| == p && r !in Order(s.order, p) {
      assert HostOk(c, s.order, s.released, r, s.hosts[r]);
    }
    FirstMember(Order(s.order, p), c.n);
  }

  lemma FirstMember(order: seq<nat>, n: nat)
    requires forall r :: r in order ==> r < n
    ensures order == [] || (order[0] in order && order[0] < n)
  {
    if order != [] { assert order[0] in order; }
  }

  /** Any order of arrival can come about, and its reduction be written. */
  lemma {:induction false} EveryOrderHappens(c: Config, p: nat, order: seq<nat>) returns (s: System)
    requires Valid(c) && forall q: nat :: q <= p ==> !c.empty(q)
    requires NoRepeat(order) && Complete(order, c.n) && forall r :: r in order ==> r < c.n
    ensures Reachable(c, s) && |s.hosts| == c.n && p < |s.hosts[0].results|
    ensures s.hosts[0].results[p] == Reduced(InputsAt(c, p), order)
  {
    var a := ReachPoised(c, p);
    var b := ArriveInOrder(c, a, p, order);
    assert forall r :: 0 <= r < c.n ==> p <= |b.hosts[r].results| && p + 1 <= b.hosts[r].posted;
    s := ExchangeUpTo(c, b, p, p + 1);
    MovesAreRuns(c, b, s);
    ReachesTrans(Steps(c), Initial(c), a, b);
    ReachesTrans(Steps(c), Initial(c), b, s);
    OrderIsSettled(c, b, s, p);
    ResultsAgree(c, s, 0, 0, p);
  }

  lemma PermutationOfRanks(order: seq<nat>, n: nat)
    requires multiset(order) == multiset(Ranks(n))
    ensures NoRepeat(order) && Complete(order, n) && forall r :: r in order ==> r < n
  {
    forall r: nat ensures r in order <==> r < n {
      assert r in order <==> r in multiset(order);
      assert r in Ranks(n) <==> r in multiset(Ranks(n));
      if r < n { assert Ranks(n)[r] == r; }
    }
    forall i, j | 0 <= i < j < |order| ensures order[i] != order[j] {
      NoRepeatCounts(Ranks(n), order[i]);
      if order[i] == order[j] { TwiceCounts(order, i, j); }
    }
  }

  lemma TwiceCounts(xs: seq<nat>, i: nat, j: nat)
    requires i < j < |xs| && xs[i] == xs[j]
    ensures multiset(xs)[xs[i]] >= 2
  {
    assert xs == xs[..j] + xs[j..];
    assert xs[..j][i] in multiset(xs[..j]);
    assert xs[j..][0] in multiset(xs[j..]);
  }

  /** Every result that any run writes for a position is the elementwise sum if and only if the words fit. */
  lemma {:induction false} ResultsAreSumsIff(c: Config, p: nat)
    requires Valid(c) && forall q: nat :: q <= p ==> !c.empty(q)
    ensures PayloadsFit(InputsAt(c, p), c.n) <==>
            forall s, r: nat :: Reachable(c, s) && r < |s.hosts| && p < |s.hosts[r].results| ==>
              IsElementwiseSum(s.hosts[r].results[p], InputsAt(c, p), c.n)
  {
    var inputs := InputsAt(c, p);
    if PayloadsFit(inputs, c.n) {
      forall s, r: nat | Reachable(c, s) && r < |s.hosts| && p < |s.hosts[r].results|
        ensures IsElementwiseSum(s.hosts[r].results[p], inputs, c.n)
      {
        ResultsAreSums(c, s, r, p);
      }
    } else {
      var odd: bool, i: nat :| i < PAIRS && !Saturation.Fits(Column(inputs, Ranks(c.n), odd, i));
      var order := UnfitPayloadsFail(inputs, c.n, odd, i);
      PermutationOfRanks(order, c.n);
      var s := EveryOrderHappens(c, p, order);
      assert !IsElementwiseSum(s.hosts[0].results[p], inputs, c.n);
    }
  }
}
