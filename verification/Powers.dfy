/** Powers of two and bitwise AND, as the controller, the host library and the switch use them. */
module Powers {

  function Pow2(k: nat): (r: nat)
    ensures r >= 1
  {
    if k == 0 then 1 else 2 * Pow2(k - 1)
  }

  /** Bitwise AND of two unbounded naturals. */
  function BitAnd(x: nat, y: nat): (r: nat)
    ensures r <= x && r <= y
  {
    if x == 0 || y == 0 then 0
    else 2 * BitAnd(x / 2, y / 2) + (if x % 2 == 1 && y % 2 == 1 then 1 else 0)
  }

  /** `x > 0 and (x & (x - 1)) == 0`. */
  predicate IsPower2(x: nat)
  {
    x > 0 && BitAnd(x, x - 1) == 0
  }

  lemma {:induction false} AndSelf(x: nat)
    ensures BitAnd(x, x) == x
  {
    if x > 0 { AndSelf(x / 2); }
  }

  lemma {:induction false} Pow2IsPower2(k: nat)
    ensures IsPower2(Pow2(k))
  {
    if k > 0 {
      Pow2IsPower2(k - 1);
      var h := Pow2(k - 1);
      assert Pow2(k) / 2 == h && (Pow2(k) - 1) / 2 == h - 1 && Pow2(k) % 2 == 0;
    }
  }

  lemma {:induction false} Exponent(x: nat) returns (k: nat)
    requires IsPower2(x)
    ensures x == Pow2(k)
  {
    if x == 1 {
      k := 0;
    } else if x % 2 == 0 {
      assert (x - 1) / 2 == x / 2 - 1;
      var h := Exponent(x / 2);
      k := h + 1;
    } else {
      assert (x - 1) / 2 == x / 2;
      AndSelf(x / 2);
      assert false;
    }
  }

  /** The bit trick holds of exactly the powers of two. */
  lemma {:induction false} IsPower2Exact(x: nat)
    ensures IsPower2(x) <==> exists k: nat :: x == Pow2(k)
  {
    if IsPower2(x) {
      var k := Exponent(x);
    } else if k: nat :| x == Pow2(k) {
      Pow2IsPower2(k);
    }
  }

  lemma HalfMod(x: nat, h: nat)
    requires h > 0
    ensures x % (2 * h) == 2 * ((x / 2) % h) + x % 2
  {
    var q, m := (x / 2) / h, (x / 2) % h;
    assert x / 2 == q * h + m;
    assert x == (2 * h) * q + (2 * m + x % 2) by {
      assert 2 * (q * h) == (2 * h) * q;
    }
    ModUnique(x, 2 * h, q, 2 * m + x % 2);
  }

  lemma {:induction false} MulStep(d: nat, a: int, b: int)
    ensures a < b ==> d * a + d <= d * b
    decreases b - a
  {
    if a + 1 < b {
      MulStep(d, a, b - 1);
      assert d * b == d * (b - 1) + d;
    } else if a + 1 == b {
      assert d * (a + 1) == d * a + d;
    }
  }

  lemma Quotient(x: nat, d: nat, k: nat)
    requires d > 0
    ensures k <= x / d <==> k * d <= x
  {
    MulStep(d, k, x / d);
    MulStep(d, x / d, k);
    assert x == d * (x / d) + x % d;
  }

  lemma ModUnique(x: nat, d: nat, q: nat, m: nat)
    requires m < d && x == d * q + m
    ensures x % d == m && x / d == q
  {
    MulStep(d, x / d, q);
    MulStep(d, q, x / d);
  }

  /** Masking with `2^k - 1` is taking the remainder modulo `2^k`. */
  lemma {:induction false} MaskIsRemainder(x: nat, k: nat)
    ensures BitAnd(x, Pow2(k) - 1) == x % Pow2(k)
    decreases k
  {
    if k == 0 {
      assert x % 1 == 0;
    } else {
      var h := Pow2(k - 1);
      assert (2 * h - 1) / 2 == h - 1 && (2 * h - 1) % 2 == 1;
      MaskIsRemainder(x / 2, k - 1);
      HalfMod(x, h);
    }
  }

  lemma {:induction false} Pow2Divides(j: nat, k: nat)
    requires j <= k
    ensures Pow2(k) % Pow2(j) == 0 && Pow2(j) <= Pow2(k)
  {
    if j < k {
      Pow2Divides(j, k - 1);
      var q := Pow2(k - 1) / Pow2(j);
      assert Pow2(k - 1) == Pow2(j) * q;
      assert Pow2(k) == Pow2(j) * (2 * q);
      ModUnique(Pow2(k), Pow2(j), 2 * q, 0);
    }
  }
}
