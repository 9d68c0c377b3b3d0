/** The controller's free list of switch memory: aligned first fit, split on allocation, merge on release. */
module Segments {
  import opened Options
  import opened Powers

  const MTU_SIZE: nat := 256
  const SWITCH_MEM_SIZE: nat := 0x40_0000

  /** Addresses lo <= x < hi. */
  datatype Segment = Segment(lo: nat, hi: nat) {
    predicate Has(x: nat) { lo <= x < hi }
    predicate Meets(s: Segment) { lo < s.hi && s.lo < hi }
  }

  // ---- Alignment -------------------------------------------------------------------------------

  /** The least multiple of y that is at least x. */
  function UpperAlign(x: nat, y: nat): (r: nat)
    requires y > 0
    ensures x <= r && r % y == 0
    ensures forall m: nat :: x <= m && m % y == 0 ==> r <= m
  {
    var q := (x + y - 1) / y;
    ModUnique(q * y, y, q, 0);
    assert forall m: nat :: x <= m && m % y == 0 ==> q * y <= m by {
      forall m: nat | x <= m && m % y == 0 ensures q * y <= m {
        MulStep(y, m / y, q);
      }
    }
    q * y
  }

  /** x is a multiple of d. */
  predicate Multiple(x: nat, d: nat)
    requires d > 0
    decreases x
  {
    if x < d then x == 0 else Multiple(x - d, d)
  }

  lemma {:induction false} MultipleExact(x: nat, d: nat)
    requires d > 0
    ensures Multiple(x, d) <==> x % d == 0
    decreases x
  {
    if x >= d {
      MultipleExact(x - d, d);
      var q := (x - d) / d;
      ModUnique(x, d, q + 1, (x - d) % d);
    }
  }

  /** An aligned block of `size` addresses at a lies inside seg. */
  predicate Holds(seg: Segment, size: nat, a: nat)
    requires size > 0
  {
    Multiple(a, size) && seg.lo <= a && a + size <= seg.hi
  }

  function AddrInSeg(seg: Segment, size: nat): (r: Option<nat>)
    requires size > 0
    ensures r.Some? ==> Holds(seg, size, r.value) && forall a: nat :: Holds(seg, size, a) ==> r.value <= a
    ensures r.None? ==> forall a: nat :: !Holds(seg, size, a)
  {
    var addr := UpperAlign(seg.lo, size);
    assert forall a: nat :: Multiple(a, size) <==> a % size == 0 by {
      forall a: nat ensures Multiple(a, size) <==> a % size == 0 { MultipleExact(a, size); }
    }
    if addr + size <= seg.hi then Some(addr) else None
  }

  predicate ValidSize(size: nat)
  {
    size % MTU_SIZE == 0 && IsPower2(size / MTU_SIZE)
  }

  // ---- The free list ---------------------------------------------------------------------------

  /** Non-empty segments in increasing order without overlap. Neighbours may touch. */
  ghost predicate Ordered(ms: seq<Segment>)
  {
    && (forall i :: 0 <= i < |ms| ==> ms[i].lo < ms[i].hi)
    && (forall i, j :: 0 <= i < j < |ms| ==> ms[i].hi <= ms[j].lo)
  }

  ghost predicate MtuAligned(ms: seq<Segment>)
  {
    forall i :: 0 <= i < |ms| ==> ms[i].lo % MTU_SIZE == 0 && ms[i].hi % MTU_SIZE == 0
  }

  ghost predicate FreeAt(ms: seq<Segment>, x: nat)
  {
    exists i :: 0 <= i < |ms| && ms[i].Has(x)
  }

  ghost predicate EndsAt(ms: seq<Segment>, x: nat)
  {
    exists i :: 0 <= i < |ms| && ms[i].hi == x
  }

  ghost predicate StartsAt(ms: seq<Segment>, x: nat)
  {
    exists i :: 0 <= i < |ms| && ms[i].lo == x
  }

  /** One segment ends where another begins: they should have been merged. */
  ghost predicate Touching(ms: seq<Segment>, x: nat)
  {
    EndsAt(ms, x) && StartsAt(ms, x)
  }

  ghost predicate Coalesced(ms: seq<Segment>)
  {
    forall x: nat :: !Touching(ms, x)
  }

  // ---- Splicing --------------------------------------------------------------------------------

  /** Segments i to j replaced by others: both operations on the list are of this form. */
  function Splice(ms: seq<Segment>, i: nat, j: nat, mid: seq<Segment>): seq<Segment>
    requires i <= j <= |ms|
  {
    ms[..i] + mid + ms[j..]
  }

  ghost predicate Within(mid: seq<Segment>, lo: nat, hi: nat)
  {
    forall k :: 0 <= k < |mid| ==> lo <= mid[k].lo && mid[k].hi <= hi
  }

  lemma JoinOrdered(a: seq<Segment>, b: seq<Segment>, x: nat)
    requires Ordered(a) && Ordered(b)
    requires forall k :: 0 <= k < |a| ==> a[k].hi <= x
    requires forall k :: 0 <= k < |b| ==> x <= b[k].lo
    ensures Ordered(a + b)
  {
  }

  lemma SpliceOrdered(ms: seq<Segment>, i: nat, j: nat, mid: seq<Segment>, lo: nat, hi: nat)
    requires Ordered(ms) && i <= j <= |ms| && Ordered(mid) && Within(mid, lo, hi) && lo <= hi
    requires i > 0 ==> ms[i - 1].hi <= lo
    requires j < |ms| ==> hi <= ms[j].lo
    ensures Ordered(Splice(ms, i, j, mid))
    ensures MtuAligned(ms) && MtuAligned(mid) ==> MtuAligned(Splice(ms, i, j, mid))
  {
    JoinOrdered(ms[..i], mid, lo);
    JoinOrdered(ms[..i] + mid, ms[j..], hi);
  }

  lemma Join(a: seq<Segment>, b: seq<Segment>, x: nat)
    ensures FreeAt(a + b, x) <==> FreeAt(a, x) || FreeAt(b, x)
    ensures EndsAt(a + b, x) <==> EndsAt(a, x) || EndsAt(b, x)
    ensures StartsAt(a + b, x) <==> StartsAt(a, x) || StartsAt(b, x)
  {
    forall k | 0 <= k < |a| ensures (a + b)[k] == a[k] {}
    forall k | 0 <= k < |b| ensures (a + b)[|a| + k] == b[k] {}
  }

  lemma Spliced(ms: seq<Segment>, i: nat, j: nat, mid: seq<Segment>, x: nat)
    requires i <= j <= |ms|
    ensures var out := Splice(ms, i, j, mid);
            && (FreeAt(out, x) <==> FreeAt(ms[..i], x) || FreeAt(mid, x) || FreeAt(ms[j..], x))
            && (EndsAt(out, x) <==> EndsAt(ms[..i], x) || EndsAt(mid, x) || EndsAt(ms[j..], x))
            && (StartsAt(out, x) <==> StartsAt(ms[..i], x) || StartsAt(mid, x) || StartsAt(ms[j..], x))
  {
    Join(ms[..i], mid, x);
    Join(ms[..i] + mid, ms[j..], x);
  }

  lemma Unspliced(ms: seq<Segment>, i: nat, j: nat, x: nat)
    requires i <= j <= |ms|
    ensures FreeAt(ms, x) <==> FreeAt(ms[..i], x) || FreeAt(ms[i..j], x) || FreeAt(ms[j..], x)
    ensures EndsAt(ms, x) <==> EndsAt(ms[..i], x) || EndsAt(ms[i..j], x) || EndsAt(ms[j..], x)
    ensures StartsAt(ms, x) <==> StartsAt(ms[..i], x) || StartsAt(ms[i..j], x) || StartsAt(ms[j..], x)
  {
    assert Splice(ms, i, j, ms[i..j]) == ms;
    Spliced(ms, i, j, ms[i..j], x);
  }

  /** Segments that all end at or before t, or all start at or after t. */
  ghost predicate Below(a: seq<Segment>, t: nat)
  {
    forall k :: 0 <= k < |a| ==> a[k].lo < a[k].hi <= t
  }

  ghost predicate Above(b: seq<Segment>, t: nat)
  {
    forall k :: 0 <= k < |b| ==> t <= b[k].lo < b[k].hi
  }

  lemma BelowFacts(a: seq<Segment>, t: nat, x: nat)
    requires Below(a, t)
    ensures (FreeAt(a, x) ==> x < t) && (EndsAt(a, x) ==> x <= t) && (StartsAt(a, x) ==> x < t)
  {
  }

  lemma AboveFacts(b: seq<Segment>, t: nat, x: nat)
    requires Above(b, t)
    ensures (FreeAt(b, x) ==> t <= x) && (EndsAt(b, x) ==> t < x) && (StartsAt(b, x) ==> t <= x)
  {
  }

  lemma Sides(ms: seq<Segment>, i: nat, t: nat)
    requires Ordered(ms) && i <= |ms|
    ensures (i > 0 ==> ms[i - 1].hi <= t) ==> Below(ms[..i], t)
    ensures (i < |ms| ==> t <= ms[i].lo) ==> Above(ms[i..], t)
  {
  }

  lemma Single(s: Segment, x: nat)
    ensures FreeAt([s], x) <==> s.Has(x)
    ensures EndsAt([s], x) <==> s.hi == x
    ensures StartsAt([s], x) <==> s.lo == x
  {
    assert [s][0] == s;
  }

  // ---- Fit -------------------------------------------------------------------------------------

  datatype Fit = InvalidSize | NoFit | At(index: nat, addr: nat)

  /** The lowest aligned address in the first listed segment that can hold the block. */
  ghost predicate IsFirstFit(ms: seq<Segment>, size: nat, f: Fit)
  {
    match f
    case InvalidSize => !ValidSize(size)
    case NoFit => ValidSize(size) && forall j, a: nat :: 0 <= j < |ms| ==> !Holds(ms[j], size, a)
    case At(i, addr) =>
      && ValidSize(size) && i < |ms| && Holds(ms[i], size, addr)
      && (forall a: nat :: Holds(ms[i], size, a) ==> addr <= a)
      && (forall j, a: nat :: 0 <= j < i ==> !Holds(ms[j], size, a))
  }

  method FitSeg(memseg: seq<Segment>, size: nat) returns (f: Fit)
    ensures IsFirstFit(memseg, size, f)
  {
    if !ValidSize(size) { return InvalidSize; }
    for index := 0 to |memseg|
      invariant forall j, a: nat :: 0 <= j < index ==> !Holds(memseg[j], size, a)
    {
      var addr := AddrInSeg(memseg[index], size);
      if addr.Some? { return At(index, addr.value); }
    }
    f := NoFit;
  }

  // ---- Allocate --------------------------------------------------------------------------------

  /** What is left of a segment around an allocated range. */
  function Remains(seg: Segment, lo: nat, hi: nat): seq<Segment>
  {
    (if seg.lo != lo then [Segment(seg.lo, lo)] else []) + (if seg.hi != hi then [Segment(hi, seg.hi)] else [])
  }

  function Allocated(ms: seq<Segment>, index: nat, lo: nat, hi: nat): seq<Segment>
    requires index < |ms|
  {
    Splice(ms, index, index + 1, Remains(ms[index], lo, hi))
  }

  method AllocSeg(memseg: seq<Segment>, index: nat, lo: nat, hi: nat) returns (ms: seq<Segment>)
    requires index < |memseg|
    ensures ms == Allocated(memseg, index, lo, hi)
  {
    var seg := memseg[index];
    ms := memseg[..index] + memseg[index + 1..];
    if seg.hi != hi { ms := ms[..index] + [Segment(hi, seg.hi)] + ms[index..]; }
    if seg.lo != lo { ms := ms[..index] + [Segment(seg.lo, lo)] + ms[index..]; }
  }

  lemma RemainsOrdered(seg: Segment, lo: nat, hi: nat)
    requires seg.lo <= lo < hi <= seg.hi
    ensures Ordered(Remains(seg, lo, hi)) && Within(Remains(seg, lo, hi), seg.lo, seg.hi)
    ensures MtuAligned([seg]) && lo % MTU_SIZE == 0 && hi % MTU_SIZE == 0 ==> MtuAligned(Remains(seg, lo, hi))
  {
    assert [seg][0] == seg;
  }

  lemma {:induction false} AllocatedOrdered(ms: seq<Segment>, index: nat, lo: nat, hi: nat)
    requires Ordered(ms) && index < |ms| && ms[index].lo <= lo < hi <= ms[index].hi
    ensures Ordered(Allocated(ms, index, lo, hi))
    ensures MtuAligned(ms) && lo % MTU_SIZE == 0 && hi % MTU_SIZE == 0 ==> MtuAligned(Allocated(ms, index, lo, hi))
  {
    assert index > 0 ==> ms[index - 1].hi <= ms[index].lo;
    assert index + 1 < |ms| ==> ms[index].hi <= ms[index + 1].lo;
    assert MtuAligned(ms) ==> MtuAligned([ms[index]]);
    hide Ordered, MtuAligned, Remains, Splice, Within;
    RemainsOrdered(ms[index], lo, hi);
    SpliceOrdered(ms, index, index + 1, Remains(ms[index], lo, hi), ms[index].lo, ms[index].hi);
  }

  lemma RemainsSet(seg: Segment, lo: nat, hi: nat, x: nat)
    requires seg.lo <= lo < hi <= seg.hi
    ensures FreeAt(Remains(seg, lo, hi), x) <==> seg.Has(x) && !(lo <= x < hi)
  {
    Join(if seg.lo != lo then [Segment(seg.lo, lo)] else [], if seg.hi != hi then [Segment(hi, seg.hi)] else [], x);
    Single(Segment(seg.lo, lo), x);
    Single(Segment(hi, seg.hi), x);
  }

  lemma Around(ms: seq<Segment>, index: nat)
    requires Ordered(ms) && index < |ms|
    ensures Below(ms[..index], ms[index].lo) && Above(ms[index + 1..], ms[index].hi)
  {
    Sides(ms, index, ms[index].lo);
    Sides(ms, index + 1, ms[index].hi);
  }

  /** Exactly the allocated range leaves the free set. */
  lemma {:induction false} AllocatedSet(ms: seq<Segment>, index: nat, lo: nat, hi: nat, x: nat)
    requires Ordered(ms) && index < |ms| && ms[index].lo <= lo < hi <= ms[index].hi
    ensures FreeAt(Allocated(ms, index, lo, hi), x) <==> FreeAt(ms, x) && !(lo <= x < hi)
  {
    hide Ordered, FreeAt, EndsAt, StartsAt, Below, Above, Remains, Splice;
    Around(ms, index);
    Spliced(ms, index, index + 1, Remains(ms[index], lo, hi), x);
    Unspliced(ms, index, index + 1, x);
    RemainsSet(ms[index], lo, hi, x);
    assert ms[index..index + 1] == [ms[index]];
    Single(ms[index], x);
    BelowFacts(ms[..index], ms[index].lo, x);
    AboveFacts(ms[index + 1..], ms[index].hi, x);
  }

  // ---- Free ------------------------------------------------------------------------------------

  /** The first segment not wholly below lo. */
  function FreeIndex(ms: seq<Segment>, lo: nat): (r: nat)
    ensures r <= |ms| && (forall j :: 0 <= j < r ==> ms[j].hi <= lo)
    ensures r < |ms| ==> ms[r].hi > lo
  {
    if ms == [] || ms[0].hi > lo then 0 else 1 + FreeIndex(ms[1..], lo)
  }

  /** "Invalid free". */
  predicate Rejected(ms: seq<Segment>, lo: nat, hi: nat)
  {
    var r := FreeIndex(ms, lo);
    r < |ms| && ms[r].lo < hi
  }

  /** The segments a release replaces, and by what: the left neighbour is merged when it touches, and the
      right one only when the left one does not. */
  function Merge(ms: seq<Segment>, lo: nat, hi: nat): (m: (nat, nat, Segment))
    ensures m.0 <= m.1 <= |ms|
  {
    var r := FreeIndex(ms, lo);
    if r > 0 && ms[r - 1].hi == lo then (r - 1, r, Segment(ms[r - 1].lo, hi))
    else if r < |ms| && ms[r].lo == hi then (r, r + 1, Segment(lo, ms[r].hi))
    else (r, r, Segment(lo, hi))
  }

  function Freed(ms: seq<Segment>, lo: nat, hi: nat): seq<Segment>
  {
    var (i, j, s) := Merge(ms, lo, hi);
    Splice(ms, i, j, [s])
  }

  /** A release is rejected exactly when some free segment meets the range. */
  lemma {:induction false} RejectedIff(ms: seq<Segment>, lo: nat, hi: nat)
    requires Ordered(ms) && lo < hi
    ensures Rejected(ms, lo, hi) <==> exists i :: 0 <= i < |ms| && ms[i].Meets(Segment(lo, hi))
  {
    var r := FreeIndex(ms, lo);
    if i :| 0 <= i < |ms| && ms[i].Meets(Segment(lo, hi)) {
      assert r <= i;
      assert ms[r].lo <= ms[i].lo;
    }
  }

  method RightIndex(memseg: seq<Segment>, addr_l: nat, addr_r: nat) returns (ok: bool, rIndex: nat)
    ensures ok <==> !Rejected(memseg, addr_l, addr_r)
    ensures ok ==> rIndex == FreeIndex(memseg, addr_l)
  {
    rIndex := |memseg|;
    for index := 0 to |memseg|
      invariant forall j :: 0 <= j < index ==> memseg[j].hi <= addr_l
    {
      if memseg[index].hi <= addr_l { continue; }
      assert FreeIndex(memseg, addr_l) == index;
      if memseg[index].lo < addr_r { return false, index; }
      return true, index;
    }
    ok := true;
  }

  /** The release as written: after the left neighbour is deleted, the right neighbour is looked for at
      its old index, which is one too far. */
  method FreeSeg(memseg: seq<Segment>, addr_l: nat, addr_r: nat) returns (ok: bool, ms: seq<Segment>)
    requires Ordered(memseg) && addr_l < addr_r
    ensures ok <==> !Rejected(memseg, addr_l, addr_r)
    ensures ms == if ok then Freed(memseg, addr_l, addr_r) else memseg
  {
    var rIndex;
    ms := memseg;
    ok, rIndex := RightIndex(memseg, addr_l, addr_r);
    if !ok { return; }
    assert rIndex + 1 < |memseg| ==> addr_r < memseg[rIndex + 1].lo;
    hide Ordered;
    var lo, hi, index := addr_l, addr_r, rIndex;
    if rIndex - 1 >= 0 && ms[rIndex - 1].hi == lo {
      lo := ms[rIndex - 1].lo;
      index := rIndex - 1;
      ms := ms[..index] + ms[index + 1..];
      assert rIndex < |ms| ==> ms[rIndex] == memseg[rIndex + 1];
    }
    if rIndex < |ms| && ms[rIndex].lo == hi {
      hi := ms[rIndex].hi;
      ms := ms[..rIndex] + ms[rIndex + 1..];
    }
    ms := ms[..index] + [Segment(lo, hi)] + ms[index..];
  }

  lemma {:induction false} FreedOrdered(ms: seq<Segment>, lo: nat, hi: nat)
    requires Ordered(ms) && lo < hi && !Rejected(ms, lo, hi)
    ensures Ordered(Freed(ms, lo, hi))
    ensures MtuAligned(ms) && lo % MTU_SIZE == 0 && hi % MTU_SIZE == 0 ==> MtuAligned(Freed(ms, lo, hi))
  {
    var (i, j, s) := Merge(ms, lo, hi);
    SpliceOrdered(ms, i, j, [s], s.lo, s.hi);
  }

  /** Which neighbours touch decides the merge. */
  lemma Neighbours(ms: seq<Segment>, lo: nat, hi: nat)
    requires Ordered(ms) && lo < hi && !Rejected(ms, lo, hi)
    ensures var r := FreeIndex(ms, lo);
            && (EndsAt(ms, lo) <==> r > 0 && ms[r - 1].hi == lo)
            && (StartsAt(ms, hi) <==> r < |ms| && ms[r].lo == hi)
            && !StartsAt(ms, lo) && !EndsAt(ms, hi)
  {
  }

  /** The three membership facts about a release, for one address. */
  ghost predicate Release(before: seq<Segment>, after: seq<Segment>, lo: nat, hi: nat, x: nat)
  {
    && (FreeAt(after, x) <==> FreeAt(before, x) || lo <= x < hi)
    && (EndsAt(after, x) <==>
          (EndsAt(before, x) && x != lo) || (x == hi && (EndsAt(before, lo) || !StartsAt(before, hi))))
    && (StartsAt(after, x) <==>
          (StartsAt(before, x) && (x != hi || EndsAt(before, lo))) || (x == lo && !EndsAt(before, lo)))
  }

  lemma MergeShape(ms: seq<Segment>, lo: nat, hi: nat)
    requires Ordered(ms) && lo < hi && !Rejected(ms, lo, hi)
    ensures var (i, j, s) := Merge(ms, lo, hi);
            && ms[i..j] == (if s.lo < lo then [Segment(s.lo, lo)] else if hi < s.hi then [Segment(hi, s.hi)] else [])
            && Below(ms[..i], s.lo) && Above(ms[j..], s.hi)
  {
    hide Ordered, Rejected, Merge, Below, Above;
    var (i, j, s) := Merge(ms, lo, hi);
    MergeSlice(ms, lo, hi);
    MergeBounds(ms, lo, hi);
    Sides(ms, i, s.lo);
    Sides(ms, j, s.hi);
  }

  lemma MergeSlice(ms: seq<Segment>, lo: nat, hi: nat)
    requires Ordered(ms) && lo < hi && !Rejected(ms, lo, hi)
    ensures var (i, j, s) := Merge(ms, lo, hi);
            ms[i..j] == (if s.lo < lo then [Segment(s.lo, lo)] else if hi < s.hi then [Segment(hi, s.hi)] else [])
  {
    var (i, j, s) := Merge(ms, lo, hi);
    if i < j { assert ms[i..j] == [ms[i]]; } else { assert ms[i..j] == []; }
  }

  lemma MergeBounds(ms: seq<Segment>, lo: nat, hi: nat)
    requires Ordered(ms) && lo < hi && !Rejected(ms, lo, hi)
    ensures var (i, j, s) := Merge(ms, lo, hi); (i > 0 ==> ms[i - 1].hi <= s.lo) && (j < |ms| ==> s.hi <= ms[j].lo)
  {
  }

  lemma ReleaseFacts(ms: seq<Segment>, lo: nat, hi: nat, x: nat)
    requires Ordered(ms) && lo < hi && !Rejected(ms, lo, hi)
    ensures Release(ms, Freed(ms, lo, hi), lo, hi, x)
  {
    var (i, j, s) := Merge(ms, lo, hi);
    MergeShape(ms, lo, hi);
    Neighbours(ms, lo, hi);
    Replaced(ms, i, j, s, lo, hi, x);
  }

  lemma Replaced(ms: seq<Segment>, i: nat, j: nat, s: Segment, lo: nat, hi: nat, x: nat)
    requires i <= j <= |ms| && s.lo <= lo < hi <= s.hi && (s.lo == lo || s.hi == hi)
    requires ms[i..j] == (if s.lo < lo then [Segment(s.lo, lo)] else if hi < s.hi then [Segment(hi, s.hi)] else [])
    requires EndsAt(ms, lo) <==> s.lo < lo
    requires if s.lo < lo then true else StartsAt(ms, hi) <==> hi < s.hi
    requires !StartsAt(ms, lo) && !EndsAt(ms, hi)
    requires Below(ms[..i], s.lo) && Above(ms[j..], s.hi)
    ensures Release(ms, Splice(ms, i, j, [s]), lo, hi, x)
  {
    Spliced(ms, i, j, [s], x);
    Unspliced(ms, i, j, x);
    Unspliced(ms, i, j, hi);
    Single(s, x);
    Single(Segment(s.lo, lo), x);
    Single(Segment(hi, s.hi), x);
    BelowFacts(ms[..i], s.lo, x);
    AboveFacts(ms[j..], s.hi, x);
  }

  /** The free set grows by exactly the released range. */
  lemma {:induction false} FreedSet(ms: seq<Segment>, lo: nat, hi: nat, x: nat)
    requires Ordered(ms) && lo < hi && !Rejected(ms, lo, hi)
    ensures FreeAt(Freed(ms, lo, hi), x) <==> FreeAt(ms, x) || lo <= x < hi
  {
    ReleaseFacts(ms, lo, hi, x);
  }

  /** A boundary between touching segments appears only at hi, and exactly when both neighbours
      touched the released range. */
  lemma {:induction false} FreedTouching(ms: seq<Segment>, lo: nat, hi: nat, x: nat)
    requires Ordered(ms) && lo < hi && !Rejected(ms, lo, hi)
    ensures Touching(Freed(ms, lo, hi), x) <==>
            Touching(ms, x) || (x == hi && EndsAt(ms, lo) && StartsAt(ms, hi))
  {
    ReleaseFacts(ms, lo, hi, x);
    Neighbours(ms, lo, hi);
  }

  /** A release keeps the list fully merged exactly when not both neighbours touch. */
  lemma {:induction false} CoalescedIff(ms: seq<Segment>, lo: nat, hi: nat)
    requires Ordered(ms) && lo < hi && !Rejected(ms, lo, hi)
    ensures Coalesced(Freed(ms, lo, hi)) <==> Coalesced(ms) && !(EndsAt(ms, lo) && StartsAt(ms, hi))
  {
    forall x: nat ensures Touching(Freed(ms, lo, hi), x) <==>
                          Touching(ms, x) || (x == hi && EndsAt(ms, lo) && StartsAt(ms, hi)) {
      FreedTouching(ms, lo, hi, x);
    }
    if EndsAt(ms, lo) && StartsAt(ms, hi) {
      assert Touching(Freed(ms, lo, hi), hi);
    }
    if x: nat :| Touching(ms, x) {
      assert Touching(Freed(ms, lo, hi), x);
    }
  }

  /** With everything free, a request for the whole memory is granted exactly when the list is merged. */
  lemma {:induction false} WholeMemoryFitsIff(ms: seq<Segment>)
    requires Ordered(ms) && forall x: nat :: FreeAt(ms, x) <==> x < SWITCH_MEM_SIZE
    ensures (exists j, a: nat :: 0 <= j < |ms| && Holds(ms[j], SWITCH_MEM_SIZE, a)) <==> Coalesced(ms)
  {
    assert FreeAt(ms, 0);
    assert ms[0].lo == 0;
    var h := ms[0].hi;
    assert ms[0].Has(h - 1);
    assert h <= SWITCH_MEM_SIZE by { assert FreeAt(ms, h - 1); }
    if h == SWITCH_MEM_SIZE {
      assert |ms| == 1 by {
        if |ms| > 1 {
          assert ms[1].Has(ms[1].lo);
          assert FreeAt(ms, ms[1].lo);
        }
      }
      assert Holds(ms[0], SWITCH_MEM_SIZE, 0);
    } else {
      assert FreeAt(ms, h);
      var i :| 0 <= i < |ms| && ms[i].Has(h);
      assert ms[i].lo == h;
      assert Touching(ms, h);
      forall j, a: nat | 0 <= j < |ms| ensures !Holds(ms[j], SWITCH_MEM_SIZE, a) {
        if Holds(ms[j], SWITCH_MEM_SIZE, a) {
          assert ms[j].Has(ms[j].hi - 1);
          assert FreeAt(ms, ms[j].hi - 1);
        }
      }
    }
  }

  const MB: nat := 0x10_0000

  /** Three blocks of 1, 1 and 2 MB are placed by first fit until nothing is left. */
  lemma {:induction false} ThreeBlocks()
    ensures var start := [Segment(0, SWITCH_MEM_SIZE)];
            && IsFirstFit(start, MB, At(0, 0))
            && Allocated(start, 0, 0, MB) == [Segment(MB, SWITCH_MEM_SIZE)]
            && IsFirstFit([Segment(MB, SWITCH_MEM_SIZE)], MB, At(0, MB))
            && Allocated([Segment(MB, SWITCH_MEM_SIZE)], 0, MB, 2 * MB) == [Segment(2 * MB, SWITCH_MEM_SIZE)]
            && IsFirstFit([Segment(2 * MB, SWITCH_MEM_SIZE)], 2 * MB, At(0, 2 * MB))
            && Allocated([Segment(2 * MB, SWITCH_MEM_SIZE)], 0, 2 * MB, 4 * MB) == []
  {
    Sizes();
  }

  /** Released in the order first, third, second, they leave all memory free in two touching halves, and
      a request for the whole of it finds no segment. */
  lemma {:induction false} ReleasedApart()
    ensures Freed([], 0, MB) == [Segment(0, MB)]
    ensures Freed([Segment(0, MB)], 2 * MB, 4 * MB) == [Segment(0, MB), Segment(2 * MB, 4 * MB)]
    ensures Freed([Segment(0, MB), Segment(2 * MB, 4 * MB)], MB, 2 * MB) ==
            [Segment(0, 2 * MB), Segment(2 * MB, 4 * MB)]
    ensures forall x: nat :: FreeAt([Segment(0, 2 * MB), Segment(2 * MB, 4 * MB)], x) <==> x < SWITCH_MEM_SIZE
    ensures IsFirstFit([Segment(0, 2 * MB), Segment(2 * MB, 4 * MB)], SWITCH_MEM_SIZE, NoFit)
  {
    Sizes();
    var two, halves := [Segment(0, MB), Segment(2 * MB, 4 * MB)], [Segment(0, 2 * MB), Segment(2 * MB, 4 * MB)];
    assert two[0].hi <= MB < two[1].hi;
    assert FreeIndex(two, MB) == 1;
    forall x: nat ensures FreeAt(halves, x) <==> x < SWITCH_MEM_SIZE {
      if x < SWITCH_MEM_SIZE { assert halves[if x < 2 * MB then 0 else 1].Has(x); }
    }
  }

  lemma Sizes()
    ensures ValidSize(0x10_0000) && ValidSize(0x20_0000) && ValidSize(SWITCH_MEM_SIZE)
  {
    assert Pow2(12) == 0x1000 by { assert Pow2(4) == 16; assert Pow2(8) == 256; }
    assert Pow2(13) == 0x2000 && Pow2(14) == 0x4000;
    Pow2IsPower2(12);
    Pow2IsPower2(13);
    Pow2IsPower2(14);
  }

  // ---- Slots -----------------------------------------------------------------------------------

  /** The aggregation slot of a packet: the group's first slot plus the masked sequence number. */
  function SlotOf(lo: nat, size: nat, psn: nat): nat
    requires size >= MTU_SIZE
  {
    lo / MTU_SIZE + BitAnd(psn, size / MTU_SIZE - 1)
  }

  /** Every packet of a group lands in the group's own slots. */
  lemma {:induction false} SlotInRange(lo: nat, size: nat, psn: nat)
    requires ValidSize(size) && Multiple(lo, size)
    ensures size >= MTU_SIZE && lo <= SlotOf(lo, size, psn) * MTU_SIZE < lo + size
    ensures SlotOf(lo, size, psn) == lo / MTU_SIZE + psn % (size / MTU_SIZE)
  {
    var k := Exponent(size / MTU_SIZE);
    MaskIsRemainder(psn, k);
    AlignedLo(lo, size);
  }

  lemma {:induction false} AlignedLo(lo: nat, size: nat)
    requires size > 0 && size % MTU_SIZE == 0 && Multiple(lo, size)
    ensures lo % MTU_SIZE == 0 && (lo + size) % MTU_SIZE == 0
  {
    if lo > 0 {
      AlignedLo(lo - size, size);
      AlignedSum(lo - size, size);
    }
    AlignedSum(lo, size);
  }

  lemma AlignedSum(a: nat, b: nat)
    requires a % MTU_SIZE == 0 && b % MTU_SIZE == 0
    ensures (a + b) % MTU_SIZE == 0
  {
  }
}
