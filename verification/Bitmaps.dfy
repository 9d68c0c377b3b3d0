/** The 32-bit contribution bitmaps of the switch, bit by bit, and the masks the controller installs. */
module Bitmaps {
  import opened Powers

  const WIDTH: nat := 32

  type Bitmap = b: seq<bool> | |b| == WIDTH
    witness [false, false, false, false, false, false, false, false,
             false, false, false, false, false, false, false, false,
             false, false, false, false, false, false, false, false,
             false, false, false, false, false, false, false, false]

  function EmptyBitmap(): Bitmap
  {
    seq(WIDTH, k => false)
  }

  /** `1 << i`. */
  function Bit(i: nat): Bitmap
  {
    seq(WIDTH, k => k == i)
  }

  /** `(1 << n) - 1`. */
  function Mask(n: nat): Bitmap
  {
    seq(WIDTH, k => k < n)
  }

  function Or(a: Bitmap, b: Bitmap): Bitmap
  {
    seq(WIDTH, k requires 0 <= k < WIDTH => a[k] || b[k])
  }

  function Xor(a: Bitmap, b: Bitmap): Bitmap
  {
    seq(WIDTH, k requires 0 <= k < WIDTH => a[k] != b[k])
  }

  /** `((1 << n) - 1) ^ (1 << root)`: everyone but the root. */
  function RootMask(n: nat, root: nat): Bitmap
  {
    Xor(Mask(n), Bit(root))
  }

  /** The bitmap a register holds after the ranks in `order` have been OR-ed in, one at a time. */
  function OrAll(order: seq<nat>): Bitmap
  {
    if order == [] then EmptyBitmap()
    else Or(OrAll(order[..|order| - 1]), Bit(order[|order| - 1]))
  }

  lemma {:induction false} OrAllMembers(order: seq<nat>, k: nat)
    requires k < WIDTH
    ensures OrAll(order)[k] <==> k in order
  {
    if order != [] {
      OrAllMembers(order[..|order| - 1], k);
      assert order == order[..|order| - 1] + [order[|order| - 1]];
    }
  }

  lemma {:induction false} OrAllAppend(order: seq<nat>, r: nat)
    ensures OrAll(order + [r]) == Or(OrAll(order), Bit(r))
  {
    assert (order + [r])[..|order|] == order;
  }

  /** OR-ing in a rank that is already there changes nothing. */
  lemma {:induction false} OrIdempotent(order: seq<nat>, r: nat)
    requires r in order && r < WIDTH
    ensures Or(OrAll(order), Bit(r)) == OrAll(order)
  {
    OrAllMembers(order, r);
  }

  /** Allreduce: the register equals the mask exactly when every rank has contributed,
      for any order and any repetition of contributions. */
  lemma {:induction false} FullExactlyWhenAllContributed(order: seq<nat>, n: nat)
    requires n <= WIDTH && forall r :: r in order ==> r < n
    ensures OrAll(order) == Mask(n) <==> forall r: nat :: r < n ==> r in order
  {
    forall k: nat | k < WIDTH ensures OrAll(order)[k] <==> k in order {
      OrAllMembers(order, k);
    }
    if forall r: nat :: r < n ==> r in order {
      forall k | 0 <= k < WIDTH ensures OrAll(order)[k] == Mask(n)[k] {}
    } else {
      var r: nat :| r < n && r !in order;
      assert OrAll(order)[r] != Mask(n)[r];
    }
  }

  /** Reduce and broadcast: the register equals the mask exactly when every rank but the root
      has contributed and the root has not. */
  lemma {:induction false} RootFullExactlyWhenOthersContributed(order: seq<nat>, n: nat, root: nat)
    requires root < n <= WIDTH && forall r :: r in order ==> r < n
    ensures OrAll(order) == RootMask(n, root) <==>
            root !in order && forall r: nat :: r < n && r != root ==> r in order
  {
    forall k: nat | k < WIDTH ensures OrAll(order)[k] <==> k in order {
      OrAllMembers(order, k);
    }
    var m := RootMask(n, root);
    if root !in order && forall r: nat :: r < n && r != root ==> r in order {
      forall k | 0 <= k < WIDTH ensures OrAll(order)[k] == m[k] {}
    } else if root in order {
      assert OrAll(order)[root] != m[root];
    } else {
      var r: nat :| r < n && r != root && r !in order;
      assert OrAll(order)[r] != m[r];
    }
  }

  // The numbers the controller writes with shifts are these bitmaps.

  /** The number whose `k` low bits are those of `b`. */
  function Value(b: Bitmap, k: nat): nat
    requires k <= WIDTH
  {
    if k == 0 then 0 else Value(b, k - 1) + (if b[k - 1] then Pow2(k - 1) else 0)
  }

  lemma {:induction false} BitValue(i: nat, k: nat)
    requires k <= WIDTH
    ensures Value(Bit(i), k) == if i < k then Pow2(i) else 0
  {
    if k > 0 { BitValue(i, k - 1); }
  }

  lemma {:induction false} MaskValue(n: nat, k: nat)
    requires k <= WIDTH
    ensures Value(Mask(n), k) == Pow2(if n < k then n else k) - 1
  {
    if k > 0 { MaskValue(n, k - 1); }
  }

  lemma {:induction false} RootMaskValue(n: nat, root: nat, k: nat)
    requires root < n && k <= WIDTH
    ensures Value(RootMask(n, root), k) + Value(Bit(root), k) == Value(Mask(n), k)
  {
    if k > 0 { RootMaskValue(n, root, k - 1); }
  }
}
