/** From the switch's lane-by-lane folds to sums over ranks. */
module Reduction {
  import opened Saturation
  import opened SwitchPipeline

  function Ranks(n: nat): seq<nat>
  {
    seq(n, i => i)
  }

  /** Word `2 * i + (if odd then 1 else 0)` of a payload. */
  function Lane(p: Payload, odd: bool, i: nat): Word
    requires i < PAIRS
  {
    if odd then p.hi[i] else p.lo[i]
  }

  /** One word position across the ranks of `order`. */
  function Column(inputs: Inputs, order: seq<nat>, odd: bool, i: nat): seq<Word>
    requires i < PAIRS
  {
    seq(|order|, k requires 0 <= k < |order| => Lane(inputs(order[k]), odd, i))
  }

  lemma {:induction false} LaneOfReduced(inputs: Inputs, order: seq<nat>, odd: bool, i: nat)
    requires i < PAIRS
    ensures Lane(Reduced(inputs, order), odd, i) == SatFold(Column(inputs, order, odd, i))
  {
    if order != [] {
      var front := order[..|order| - 1];
      LaneOfReduced(inputs, front, odd, i);
      var xs := Column(inputs, order, odd, i);
      assert xs[..|xs| - 1] == Column(inputs, front, odd, i);
    }
  }

  /** Dropping one rank drops its word. */
  lemma {:induction false} DropRank(inputs: Inputs, a: seq<nat>, k: nat, odd: bool, i: nat)
    requires i < PAIRS && k < |a|
    ensures var a' := a[..k] + a[k + 1..];
            && multiset(a) == multiset(a') + multiset{a[k]}
            && multiset(Column(inputs, a, odd, i)) ==
               multiset(Column(inputs, a', odd, i)) + multiset{Lane(inputs(a[k]), odd, i)}
  {
    DropAt(a, k);
    DropAt(Column(inputs, a, odd, i), k);
    ColumnWithout(inputs, a, k, odd, i);
    hide Lane;
  }

  lemma ColumnWithout(inputs: Inputs, a: seq<nat>, k: nat, odd: bool, i: nat)
    requires i < PAIRS && k < |a|
    ensures var xs := Column(inputs, a, odd, i);
            Column(inputs, a[..k] + a[k + 1..], odd, i) == xs[..k] + xs[k + 1..]
  {
    hide Lane;
  }

  lemma {:induction false} ColumnIgnoresOrder(inputs: Inputs, a: seq<nat>, b: seq<nat>, odd: bool, i: nat)
    requires i < PAIRS && multiset(a) == multiset(b)
    ensures multiset(Column(inputs, a, odd, i)) == multiset(Column(inputs, b, odd, i))
    decreases |a|
  {
    if a == [] {
      assert multiset(b) == multiset{};
      assert b == [];
    } else {
      hide *;
      assert a[0] in multiset(b);
      var k :| 0 <= k < |b| && b[k] == a[0];
      DropRank(inputs, a, 0, odd, i);
      DropRank(inputs, b, k, odd, i);
      DropBoth(a, b, k);
      ColumnIgnoresOrder(inputs, a[..0] + a[1..], b[..k] + b[k + 1..], odd, i);
    }
  }

  predicate NoRepeat(xs: seq<nat>)
  {
    forall i, j :: 0 <= i < j < |xs| ==> xs[i] != xs[j]
  }

  lemma {:induction false} NoRepeatCounts(xs: seq<nat>, x: nat)
    requires NoRepeat(xs)
    ensures multiset(xs)[x] == if x in xs then 1 else 0
  {
    if xs != [] {
      var front, last := xs[..|xs| - 1], xs[|xs| - 1];
      assert xs == front + [last];
      NoRepeatCounts(front, x);
      assert multiset(xs) == multiset(front) + multiset{last};
    }
  }

  /** A complete order without repetition is a permutation of the ranks. */
  lemma {:induction false} CompleteIsPermutation(order: seq<nat>, n: nat)
    requires Complete(order, n) && NoRepeat(order) && forall r :: r in order ==> r < n
    ensures multiset(order) == multiset(Ranks(n))
  {
    forall x: nat ensures multiset(order)[x] == multiset(Ranks(n))[x] {
      NoRepeatCounts(order, x);
      NoRepeatCounts(Ranks(n), x);
      if x < n { assert Ranks(n)[x] == x; }
    }
  }

  /** All ranks' words in this position add up within 32 bits, whatever the order. */
  predicate PayloadsFit(inputs: Inputs, n: nat)
  {
    forall odd: bool, i: nat {:trigger Column(inputs, Ranks(n), odd, i)} ::
      i < PAIRS ==> Fits(Column(inputs, Ranks(n), odd, i))
  }

  /** The elementwise sum over all ranks. */
  ghost predicate IsElementwiseSum(p: Payload, inputs: Inputs, n: nat)
  {
    forall odd: bool, i: nat {:trigger Lane(p, odd, i)} ::
      i < PAIRS ==> Lane(p, odd, i) == Sum(Column(inputs, Ranks(n), odd, i))
  }

  lemma {:induction false} ReducedIsElementwiseSum(inputs: Inputs, order: seq<nat>, n: nat)
    requires Complete(order, n) && NoRepeat(order) && (forall r :: r in order ==> r < n)
    requires PayloadsFit(inputs, n)
    ensures IsElementwiseSum(Reduced(inputs, order), inputs, n)
  {
    CompleteIsPermutation(order, n);
    forall odd: bool, i: nat | i < PAIRS
      ensures Lane(Reduced(inputs, order), odd, i) == Sum(Column(inputs, Ranks(n), odd, i))
    {
      LaneOfReduced(inputs, order, odd, i);
      ColumnIgnoresOrder(inputs, order, Ranks(n), odd, i);
      FitsInEveryOrder(Column(inputs, Ranks(n), odd, i), Column(inputs, order, odd, i));
    }
  }

  /** Without that, some arrival order makes the switch's answer differ from the sum. */
  lemma {:induction false} UnfitPayloadsFail(inputs: Inputs, n: nat, odd: bool, i: nat) returns (order: seq<nat>)
    requires i < PAIRS && !Fits(Column(inputs, Ranks(n), odd, i))
    ensures multiset(order) == multiset(Ranks(n))
    ensures Lane(Reduced(inputs, order), odd, i) != Sum(Column(inputs, Ranks(n), odd, i))
  {
    var xs := Column(inputs, Ranks(n), odd, i);
    var ys := UnfitHasBadOrder(xs);
    order := Realise(inputs, Ranks(n), odd, i, ys);
    LaneOfReduced(inputs, order, odd, i);
  }

  lemma ColumnCons(inputs: Inputs, r: nat, tail: seq<nat>, odd: bool, i: nat)
    requires i < PAIRS
    ensures Column(inputs, [r] + tail, odd, i) == [Lane(inputs(r), odd, i)] + Column(inputs, tail, odd, i)
  {
  }

  /** A rank whose word is the first of an arrangement; the other ranks have the rest. */
  lemma RankOfFirst(inputs: Inputs, ranks: seq<nat>, odd: bool, i: nat, ys: seq<Word>) returns (k: nat)
    requires i < PAIRS && multiset(ys) == multiset(Column(inputs, ranks, odd, i)) && ys != []
    ensures k < |ranks| && Lane(inputs(ranks[k]), odd, i) == ys[0]
    ensures multiset(ys[1..]) == multiset(Column(inputs, ranks[..k] + ranks[k + 1..], odd, i))
  {
    var xs := Column(inputs, ranks, odd, i);
    assert ys[0] in multiset(xs);
    k :| 0 <= k < |xs| && xs[k] == ys[0];
    hide Lane;
    DropBoth(ys, xs, k);
    ColumnWithout(inputs, ranks, k, odd, i);
    assert ys[..0] + ys[1..] == ys[1..];
  }

  /** Every arrangement of a column comes from an arrangement of the ranks. */
  lemma {:induction false} Realise(inputs: Inputs, ranks: seq<nat>, odd: bool, i: nat, ys: seq<Word>)
    returns (order: seq<nat>)
    requires i < PAIRS && multiset(ys) == multiset(Column(inputs, ranks, odd, i))
    ensures multiset(order) == multiset(ranks) && Column(inputs, order, odd, i) == ys
    decreases |ys|
  {
    var xs := Column(inputs, ranks, odd, i);
    if ys == [] {
      assert multiset(xs) == multiset{};
      assert xs == [] && |xs| == |ranks|;
      order := [];
    } else {
      hide *;
      var k := RankOfFirst(inputs, ranks, odd, i, ys);
      assert ys == [ys[0]] + ys[1..];
      var tail := Realise(inputs, ranks[..k] + ranks[k + 1..], odd, i, ys[1..]);
      order := [ranks[k]] + tail;
      ColumnCons(inputs, ranks[k], tail, odd, i);
      DropAt(ranks, k);
      assert multiset(order) == multiset(tail) + multiset{ranks[k]};
    }
  }
}
