/** The switch adds 32-bit words with a saturating adder, which is not associative. */
module Saturation {

  const MAX_WORD: int := 0x7fff_ffff
  const MIN_WORD: int := -0x8000_0000

  type Word = x: int | MIN_WORD <= x <= MAX_WORD

  /** P4 `|+|` on `int<32>`. */
  function SatAdd(x: Word, y: Word): Word
  {
    if x + y > MAX_WORD then MAX_WORD
    else if x + y < MIN_WORD then MIN_WORD
    else x + y
  }

  function Distance(x: int, y: int): nat
  {
    if x < y then y - x else x - y
  }

  /** No 32-bit word is nearer to the sum than the adder's. */
  lemma SatAddIsNearest(x: Word, y: Word, z: Word)
    ensures Distance(SatAdd(x, y), x + y) <= Distance(z, x + y)
    ensures -2147483648 <= SatAdd(x, y) <= 2147483647 && (-2147483648 <= z <= 2147483647)
    ensures -2147483648 <= x + y <= 2147483647 ==> SatAdd(x, y) == x + y
  {
  }

  /** The register after the words of `xs` arrived in this order; the first one overwrites. */
  function SatFold(xs: seq<Word>): Word
  {
    if xs == [] then 0
    else SatAdd(SatFold(xs[..|xs| - 1]), xs[|xs| - 1])
  }

  function Sum(xs: seq<Word>): int
  {
    if xs == [] then 0 else Sum(xs[..|xs| - 1]) + xs[|xs| - 1]
  }

  function Positives(xs: seq<Word>): int
  {
    if xs == [] then 0
    else Positives(xs[..|xs| - 1]) + (if xs[|xs| - 1] > 0 then xs[|xs| - 1] else 0)
  }

  function Negatives(xs: seq<Word>): int
  {
    if xs == [] then 0
    else Negatives(xs[..|xs| - 1]) + (if xs[|xs| - 1] < 0 then xs[|xs| - 1] else 0)
  }

  /** No partial sum, in any order, leaves the 32-bit range. */
  predicate Fits(xs: seq<Word>)
  {
    Positives(xs) <= MAX_WORD && Negatives(xs) >= MIN_WORD
  }

  lemma {:induction false} Bounds(xs: seq<Word>)
    ensures Negatives(xs) <= 0 <= Positives(xs)
    ensures Sum(xs) == Positives(xs) + Negatives(xs)
  {
    if xs != [] { Bounds(xs[..|xs| - 1]); }
  }

  /** When everything fits, saturation never shows. */
  lemma {:induction false} FitsIsExact(xs: seq<Word>)
    requires Fits(xs)
    ensures SatFold(xs) == Sum(xs)
  {
    if xs != [] {
      Bounds(xs);
      Bounds(xs[..|xs| - 1]);
      FitsIsExact(xs[..|xs| - 1]);
    }
  }

  // Sums do not depend on the order.

  lemma Cancel<T>(a: multiset<T>, b: multiset<T>, v: T)
    requires a + multiset{v} == b + multiset{v}
    ensures a == b
  {
    assert a == (a + multiset{v}) - multiset{v};
    assert b == (b + multiset{v}) - multiset{v};
  }

  lemma {:induction false} Concat(xs: seq<Word>, ys: seq<Word>)
    ensures Positives(xs + ys) == Positives(xs) + Positives(ys)
    ensures Negatives(xs + ys) == Negatives(xs) + Negatives(ys)
  {
    if ys == [] {
      assert xs + ys == xs;
    } else {
      Concat(xs, ys[..|ys| - 1]);
      assert (xs + ys)[..|xs + ys| - 1] == xs + ys[..|ys| - 1];
    }
  }

  /** A sequence is one of its elements and the rest. */
  lemma DropAt<T>(s: seq<T>, k: nat)
    requires k < |s|
    ensures multiset(s) == multiset(s[..k] + s[k + 1..]) + multiset{s[k]}
  {
    assert s == s[..k] + [s[k]] + s[k + 1..];
  }

  lemma DropBoth<T>(a: seq<T>, b: seq<T>, k: nat)
    requires multiset(a) == multiset(b) && a != [] && k < |b| && b[k] == a[0]
    ensures multiset(a[..0] + a[1..]) == multiset(b[..k] + b[k + 1..])
  {
    DropAt(a, 0);
    DropAt(b, k);
    Cancel(multiset(a[..0] + a[1..]), multiset(b[..k] + b[k + 1..]), a[0]);
  }

  lemma ConcatAt(ys: seq<Word>, k: nat)
    requires k < |ys|
    ensures var rest := ys[..k] + ys[k + 1..];
            && Positives(ys) == Positives(rest) + (if ys[k] > 0 then ys[k] else 0)
            && Negatives(ys) == Negatives(rest) + (if ys[k] < 0 then ys[k] else 0)
  {
    assert ys == ys[..k + 1] + ys[k + 1..] && ys[..k + 1][..k] == ys[..k];
    Concat(ys[..k], ys[k + 1..]);
    Concat(ys[..k + 1], ys[k + 1..]);
  }

  lemma {:induction false} SumsIgnoreOrder(xs: seq<Word>, ys: seq<Word>)
    requires multiset(xs) == multiset(ys)
    ensures Positives(xs) == Positives(ys) && Negatives(xs) == Negatives(ys)
    ensures Sum(xs) == Sum(ys)
    decreases |xs|
  {
    Bounds(xs);
    Bounds(ys);
    if xs == [] {
      assert multiset(ys) == multiset{};
      assert ys == [];
    } else {
      assert xs[0] in multiset(ys);
      var k :| 0 <= k < |ys| && ys[k] == xs[0];
      DropBoth(xs, ys, k);
      ConcatAt(xs, 0);
      ConcatAt(ys, k);
      hide *;
      SumsIgnoreOrder(xs[..0] + xs[1..], ys[..k] + ys[k + 1..]);
    }
  }

  /** Every arrival order of words that fit gives the exact sum. */
  lemma {:induction false} FitsInEveryOrder(xs: seq<Word>, ys: seq<Word>)
    requires multiset(xs) == multiset(ys) && Fits(xs)
    ensures SatFold(ys) == Sum(xs)
  {
    SumsIgnoreOrder(xs, ys);
    FitsIsExact(ys);
  }

  // When the words do not fit, some order gives the wrong sum.

  function Keep(xs: seq<Word>, negative: bool): seq<Word>
  {
    if xs == [] then []
    else Keep(xs[..|xs| - 1], negative) +
         (if (xs[|xs| - 1] < 0) == negative then [xs[|xs| - 1]] else [])
  }

  lemma {:induction false} KeepSigns(xs: seq<Word>, negative: bool, i: nat)
    requires i < |Keep(xs, negative)|
    ensures (Keep(xs, negative)[i] < 0) == negative
  {
    if i < |Keep(xs[..|xs| - 1], negative)| {
      KeepSigns(xs[..|xs| - 1], negative, i);
    }
  }

  lemma KeepNext(xs: seq<Word>, negative: bool)
    requires xs != []
    ensures var (front, last) := (xs[..|xs| - 1], xs[|xs| - 1]);
            multiset(Keep(xs, negative)) ==
            multiset(Keep(front, negative)) + (if (last < 0) == negative then multiset{last} else multiset{})
  {
  }

  lemma {:induction false} KeepSplits(xs: seq<Word>)
    ensures multiset(xs) == multiset(Keep(xs, false)) + multiset(Keep(xs, true))
  {
    if xs != [] {
      var n := |xs| - 1;
      KeepSplits(xs[..n]);
      KeepNext(xs, false);
      KeepNext(xs, true);
      DropAt(xs, n);
      assert xs[..n] + xs[n + 1..] == xs[..n];
      hide Keep;
    }
  }

  lemma {:induction false} FoldUp(xs: seq<Word>, ys: seq<Word>)
    requires forall i :: 0 <= i < |ys| ==> ys[i] >= 0
    ensures SatFold(xs + ys) == var t := SatFold(xs) + Positives(ys); if t > MAX_WORD then MAX_WORD else t
    ensures Negatives(ys) == 0 <= Positives(ys)
  {
    if ys == [] {
      assert xs + ys == xs;
    } else {
      FoldUp(xs, ys[..|ys| - 1]);
      assert (xs + ys)[..|xs + ys| - 1] == xs + ys[..|ys| - 1];
    }
  }

  lemma {:induction false} FoldDown(xs: seq<Word>, ys: seq<Word>)
    requires forall i :: 0 <= i < |ys| ==> ys[i] < 0
    ensures SatFold(xs + ys) == var t := SatFold(xs) + Negatives(ys); if t < MIN_WORD then MIN_WORD else t
    ensures Negatives(ys) <= 0 == Positives(ys)
  {
    if ys == [] {
      assert xs + ys == xs;
    } else {
      FoldDown(xs, ys[..|ys| - 1]);
      assert (xs + ys)[..|xs + ys| - 1] == xs + ys[..|ys| - 1];
    }
  }

  /** First up and then down, or first down and then up. */
  lemma TwoOrders(up: seq<Word>, down: seq<Word>)
    requires (forall i :: 0 <= i < |up| ==> up[i] >= 0) && (forall i :: 0 <= i < |down| ==> down[i] < 0)
    requires Positives(up) > MAX_WORD || Negatives(down) < MIN_WORD
    ensures var sum := Positives(up) + Negatives(down); SatFold(up + down) != sum || SatFold(down + up) != sum
    ensures Negatives(up) == 0 == Positives(down)
  {
    assert [] + up == up && [] + down == down;
    FoldUp([], up);
    FoldUp(down, up);
    FoldDown([], down);
    FoldDown(up, down);
    assert SatFold([]) == 0;
    hide SatFold, Positives, Negatives;
  }

  lemma {:induction false} UnfitHasBadOrder(xs: seq<Word>) returns (ys: seq<Word>)
    requires !Fits(xs)
    ensures multiset(ys) == multiset(xs) && SatFold(ys) != Sum(xs)
  {
    hide SatFold, Positives, Negatives, Sum, Keep;
    var up, down := Keep(xs, false), Keep(xs, true);
    KeepSplits(xs);
    forall i | 0 <= i < |up| ensures up[i] >= 0 { KeepSigns(xs, false, i); }
    forall i | 0 <= i < |down| ensures down[i] < 0 { KeepSigns(xs, true, i); }
    Bounds(xs);
    SumsIgnoreOrder(xs, up + down);
    Concat(up, down);
    FoldUp([], up);
    FoldDown([], down);
    TwoOrders(up, down);
    ys := if SatFold(up + down) != Sum(xs) then up + down else down + up;
  }

  /** The switch's reduction is the true sum for every arrival order exactly when the positive
      words and the negative words each add up within 32 bits. */
  lemma {:induction false} ExactForEveryOrderIffFits(xs: seq<Word>)
    ensures Fits(xs) <==> forall ys: seq<Word> :: multiset(ys) == multiset(xs) ==> SatFold(ys) == Sum(xs)
  {
    if Fits(xs) {
      forall ys: seq<Word> | multiset(ys) == multiset(xs) ensures SatFold(ys) == Sum(xs) {
        FitsInEveryOrder(xs, ys);
      }
    } else {
      var ys := UnfitHasBadOrder(xs);
    }
  }

  /** Two ranks suffice to disagree with the true sum, and three to make the order visible. */
  lemma OrderIsVisible()
    ensures SatFold([MAX_WORD, 1, -1]) == MAX_WORD - 1
    ensures SatFold([1, -1, MAX_WORD]) == MAX_WORD == Sum([MAX_WORD, 1, -1])
  {
    var a: seq<Word> := [MAX_WORD, 1, -1];
    assert a[..2] == [MAX_WORD, 1] && a[..2][..1] == [MAX_WORD] && [MAX_WORD][..0] == [];
    assert SatFold([MAX_WORD]) == MAX_WORD == Sum([MAX_WORD]);
    assert SatFold(a[..2]) == MAX_WORD && Sum(a[..2]) == MAX_WORD + 1;
    var b: seq<Word> := [1, -1, MAX_WORD];
    assert b[..2] == [1, -1] && b[..2][..1] == [1] && [1][..0] == [];
    assert SatFold([1]) == 1 && SatFold(b[..2]) == 0;
  }
}
