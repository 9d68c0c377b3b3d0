/** How one allreduce call cuts its padded buffer into work requests. */
module BlockPlan {
  import opened Powers

  const MTU: nat := 256

  /** The tuning parameters of a group. */
  datatype Settings = Settings(queueDepth: nat, blockSize: nat, switchWindow: nat, threshold: nat)

  /** The constructor's checks. */
  predicate Accepted(worldSize: int, rank: int, s: Settings)
  {
    && 1 <= worldSize <= 32 && rank < worldSize
    && (s.switchWindow == 0 || BitAnd(s.switchWindow, s.switchWindow - 1) == 0)
    && s.switchWindow % MTU == 0 && s.blockSize % MTU == 0
    && s.blockSize * 2 <= s.switchWindow / 2
  }

  /** What the caller must provide besides: the constructor accepts zero here, and the loop then fails. */
  predicate Usable(s: Settings)
  {
    && s.blockSize > 0 && s.queueDepth > 0
    && s.blockSize % MTU == 0 && s.blockSize * 2 <= s.switchWindow / 2
  }

  function Min(a: nat, b: nat): nat
  {
    if a < b then a else b
  }

  datatype Request = Request(offset: nat, length: nat)
  {
    predicate Holds(x: nat)
    {
      offset <= x < offset + length
    }
  }

  function Padded(size: nat): nat
  {
    (size + MTU - 1) / MTU * MTU
  }

  /** Padding is to the next whole packet and no further, so that packets of the padded buffer are those that
      hold some byte of the caller's. */
  lemma PaddedIsLeast(size: nat)
    ensures size <= Padded(size) < size + MTU && Padded(size) % MTU == 0
    ensures forall x: nat :: x * MTU < Padded(size) <==> x * MTU < size
  {
  }

  function QpNum(s: Settings, size: nat): (q: nat)
    ensures q == 1 || q == 2
  {
    if Padded(size) >= s.threshold then 2 else 1
  }

  function MergedBlock(s: Settings, size: nat): nat
  {
    QpNum(s, size) * s.blockSize
  }

  function TotalBlocks(s: Settings, size: nat): nat
    requires s.blockSize > 0
  {
    var m := MergedBlock(s, size);
    (Padded(size) + m - 1) / m
  }

  function MaxOutstanding(s: Settings): nat
    requires s.blockSize > 0
  {
    Min(s.queueDepth, s.switchWindow / 2 / s.blockSize)
  }

  /** As many blocks may be outstanding as the queue and half the switch window hold. */
  lemma MaxOutstandingIsLargest(s: Settings, depth: nat)
    requires s.blockSize > 0
    ensures depth <= MaxOutstanding(s) <==> depth <= s.queueDepth && depth * s.blockSize <= s.switchWindow / 2
  {
    Quotient(s.switchWindow / 2, s.blockSize, depth);
  }

  // ---- One block over several queue pairs --------------------------------------------------------

  /** Packets of queue pair i when n packets are split over q. */
  function SubPackets(n: nat, q: nat, i: nat): nat
    requires q > 0
  {
    n / q + (if i < n % q then 1 else 0)
  }

  function SubOffset(n: nat, q: nat, i: nat): nat
    requires q > 0
  {
    if i == 0 then 0 else SubOffset(n, q, i - 1) + SubPackets(n, q, i - 1)
  }

  lemma {:induction false} SubOffsetClosed(n: nat, q: nat, i: nat)
    requires q > 0
    ensures SubOffset(n, q, i) == i * (n / q) + Min(i, n % q)
  {
    if i > 0 {
      SubOffsetClosed(n, q, i - 1);
      assert i * (n / q) == (i - 1) * (n / q) + n / q;
    }
  }

  /** The parts add up to the whole, for any number of queue pairs. */
  lemma SubOffsetTotal(n: nat, q: nat)
    requires q > 0
    ensures SubOffset(n, q, q) == n
  {
    SubOffsetClosed(n, q, q);
  }

  /** The request for queue pair i of a message at `offset` of n packets. */
  function SubRequest(offset: nat, n: nat, q: nat, i: nat): Request
    requires q > 0
  {
    Request(offset + SubOffset(n, q, i) * MTU, SubPackets(n, q, i) * MTU)
  }

  function SubRequests(offset: nat, n: nat, q: nat, k: nat): seq<Request>
    requires q > 0
  {
    if k == 0 then [] else SubRequests(offset, n, q, k - 1) + [SubRequest(offset, n, q, k - 1)]
  }

  // ---- Contiguous requests -----------------------------------------------------------------------

  /** Each request begins where the one before ended, from lo to hi. */
  predicate Contiguous(rs: seq<Request>, lo: nat, hi: nat)
    decreases |rs|
  {
    if rs == [] then lo == hi
    else
      var last := rs[|rs| - 1];
      last.offset + last.length == hi && Contiguous(rs[..|rs| - 1], lo, last.offset)
  }

  lemma {:induction false} ContiguousConcat(a: seq<Request>, b: seq<Request>, lo: nat, mid: nat, hi: nat)
    requires Contiguous(a, lo, mid) && Contiguous(b, mid, hi)
    ensures Contiguous(a + b, lo, hi)
    decreases |b|
  {
    if b == [] {
      assert a + b == a;
    } else {
      ContiguousConcat(a, b[..|b| - 1], lo, mid, b[|b| - 1].offset);
      assert (a + b)[..|a + b| - 1] == a + b[..|b| - 1];
    }
  }

  lemma {:induction false} ContiguousBounds(rs: seq<Request>, lo: nat, hi: nat, i: nat)
    requires Contiguous(rs, lo, hi) && i < |rs|
    ensures lo <= rs[i].offset && rs[i].offset + rs[i].length <= hi
    decreases |rs|
  {
    var front := rs[..|rs| - 1];
    if i == |rs| - 1 {
      if front != [] { ContiguousBounds(front, lo, rs[i].offset, 0); }
    } else {
      ContiguousBounds(front, lo, rs[|rs| - 1].offset, i);
    }
  }

  /** Contiguous requests do not overlap. */
  lemma {:induction false} ContiguousDisjoint(rs: seq<Request>, lo: nat, hi: nat, i: nat, j: nat)
    requires Contiguous(rs, lo, hi) && i < j < |rs|
    ensures rs[i].offset + rs[i].length <= rs[j].offset
    decreases |rs|
  {
    var front := rs[..|rs| - 1];
    if j == |rs| - 1 {
      ContiguousBounds(front, lo, rs[j].offset, i);
    } else {
      ContiguousDisjoint(front, lo, rs[|rs| - 1].offset, i, j);
    }
  }

  /** And they leave no gap. */
  lemma {:induction false} ContiguousCovers(rs: seq<Request>, lo: nat, hi: nat, x: nat) returns (i: nat)
    requires Contiguous(rs, lo, hi) && lo <= x < hi
    ensures i < |rs| && rs[i].Holds(x)
    decreases |rs|
  {
    var last := rs[|rs| - 1];
    if last.offset <= x {
      i := |rs| - 1;
    } else {
      i := ContiguousCovers(rs[..|rs| - 1], lo, last.offset, x);
    }
  }

  lemma {:induction false} SubRequestsContiguous(offset: nat, n: nat, q: nat, k: nat)
    requires q > 0
    ensures |SubRequests(offset, n, q, k)| == k
    ensures Contiguous(SubRequests(offset, n, q, k), offset, offset + SubOffset(n, q, k) * MTU)
    ensures forall i :: 0 <= i < k ==> SubRequests(offset, n, q, k)[i] == SubRequest(offset, n, q, i)
  {
    if k > 0 {
      SubRequestsContiguous(offset, n, q, k - 1);
      var rs := SubRequests(offset, n, q, k);
      assert rs[..|rs| - 1] == SubRequests(offset, n, q, k - 1);
    }
  }

  // ---- A whole call --------------------------------------------------------------------------------

  function BlockOffset(s: Settings, size: nat, j: nat): nat
  {
    j * MergedBlock(s, size)
  }

  function BlockPackets(s: Settings, size: nat, j: nat): nat
    requires BlockOffset(s, size, j) <= Padded(size)
  {
    Min(MergedBlock(s, size), Padded(size) - BlockOffset(s, size, j)) / MTU
  }

  lemma BlockInside(s: Settings, size: nat, j: nat)
    requires s.blockSize > 0 && j < TotalBlocks(s, size)
    ensures BlockOffset(s, size, j) < Padded(size)
  {
    var m := MergedBlock(s, size);
    assert m >= 1 by { assert QpNum(s, size) * s.blockSize >= s.blockSize; }
    var t := TotalBlocks(s, size);
    assert t * m <= Padded(size) + m - 1;
    assert j * m + m <= t * m by { MulStep(m, j, t); }
  }

  /** The j-th request the call posts on queue pair i. */
  function RequestOf(s: Settings, size: nat, j: nat, i: nat): Request
    requires s.blockSize > 0 && j < TotalBlocks(s, size)
  {
    BlockInside(s, size, j);
    SubRequest(BlockOffset(s, size, j), BlockPackets(s, size, j), QpNum(s, size), i)
  }

  /** A request is a block, and only in the last round less. */
  lemma RequestSizes(s: Settings, size: nat, j: nat, i: nat)
    requires s.blockSize > 0 && s.blockSize % MTU == 0 && j < TotalBlocks(s, size) && i < QpNum(s, size)
    ensures RequestOf(s, size, j, i).length <= s.blockSize
    ensures j + 1 < TotalBlocks(s, size) ==> RequestOf(s, size, j, i).length == s.blockSize
  {
    BlockInside(s, size, j);
    if j + 1 < TotalBlocks(s, size) { BlockInside(s, size, j + 1); }
    var m := MergedBlock(s, size);
    assert (j + 1) * m == j * m + m;
    hide TotalBlocks, Padded, SubOffset;
    var b := s.blockSize / MTU;
    assert s.blockSize == b * MTU;
    PartOfBlock(BlockPackets(s, size, j), QpNum(s, size), b, i);
  }

  lemma PartOfBlock(n: nat, q: nat, b: nat, i: nat)
    requires (q == 1 || q == 2) && i < q && n <= q * b
    ensures SubPackets(n, q, i) <= b && (n == q * b ==> SubPackets(n, q, i) == b)
  {
  }

  /** The first k requests on queue pair i. */
  function QpPlan(s: Settings, size: nat, i: nat, k: nat): seq<Request>
    requires s.blockSize > 0 && k <= TotalBlocks(s, size)
  {
    seq(k, j requires 0 <= j < k => RequestOf(s, size, j, i))
  }

  /** All requests of the first k blocks, in posting order: block by block, over the queue pairs. */
  function Plan(s: Settings, size: nat, k: nat): seq<Request>
    requires s.blockSize > 0 && k <= TotalBlocks(s, size)
  {
    if k == 0 then []
    else
      BlockInside(s, size, k - 1);
      var q := QpNum(s, size);
      Plan(s, size, k - 1) + SubRequests(BlockOffset(s, size, k - 1), BlockPackets(s, size, k - 1), q, q)
  }

  lemma MultipleMin(a: nat, b: nat, d: nat)
    requires d > 0 && a % d == 0 && b % d == 0
    ensures Min(a, b) / d * d == Min(a, b)
  {
  }

  lemma ProductMod(k: nat, x: nat, d: nat)
    requires d > 0 && x % d == 0
    ensures (k * x) % d == 0
  {
    var y := x / d;
    assert k * x == d * (k * y);
    ModUnique(k * x, d, k * y, 0);
  }

  lemma DifferenceMod(a: nat, b: nat, d: nat)
    requires d > 0 && a % d == 0 && b % d == 0 && b <= a
    ensures (a - b) % d == 0
  {
    var x, y := a / d, b / d;
    assert a == d * x && b == d * y;
    assert y <= x by { MulStep(d, x, y); }
    assert a - b == d * (x - y);
    ModUnique(a - b, d, x - y, 0);
  }

  /** A block's size in bytes is its packets. */
  lemma BlockBytes(s: Settings, size: nat, j: nat)
    requires s.blockSize > 0 && s.blockSize % MTU == 0 && j < TotalBlocks(s, size)
    ensures BlockOffset(s, size, j) < Padded(size)
    ensures BlockPackets(s, size, j) * MTU == Min(MergedBlock(s, size), Padded(size) - BlockOffset(s, size, j))
  {
    BlockInside(s, size, j);
    var m := MergedBlock(s, size);
    ProductMod(QpNum(s, size), s.blockSize, MTU);
    ProductMod(j, m, MTU);
    DifferenceMod(Padded(size), BlockOffset(s, size, j), MTU);
    MultipleMin(m, Padded(size) - BlockOffset(s, size, j), MTU);
  }

  lemma NextBlock(s: Settings, size: nat, j: nat)
    requires s.blockSize > 0 && s.blockSize % MTU == 0 && j < TotalBlocks(s, size)
    ensures BlockOffset(s, size, j) < Padded(size)
    ensures Min(BlockOffset(s, size, j + 1), Padded(size)) == BlockOffset(s, size, j) + BlockPackets(s, size, j) * MTU
  {
    BlockBytes(s, size, j);
    var m := MergedBlock(s, size);
    assert (j + 1) * m == j * m + m;
  }

  lemma PlanNext(s: Settings, size: nat, k: nat)
    requires s.blockSize > 0 && k < TotalBlocks(s, size)
    ensures BlockOffset(s, size, k) < Padded(size)
    ensures Plan(s, size, k + 1) == Plan(s, size, k) +
            SubRequests(BlockOffset(s, size, k), BlockPackets(s, size, k), QpNum(s, size), QpNum(s, size))
  {
    hide SubRequests, QpNum, Padded, BlockOffset, BlockPackets, TotalBlocks;
    BlockInside(s, size, k);
  }

  lemma PlanContiguousNext(s: Settings, size: nat, k: nat)
    requires s.blockSize > 0 && s.blockSize % MTU == 0 && k < TotalBlocks(s, size)
    requires Contiguous(Plan(s, size, k), 0, BlockOffset(s, size, k))
    ensures Contiguous(Plan(s, size, k + 1), 0, Min(BlockOffset(s, size, k + 1), Padded(size)))
  {
    hide Contiguous, SubRequests, SubOffset, QpNum, Padded, BlockOffset, BlockPackets, TotalBlocks, Plan;
    NextBlock(s, size, k);
    PlanNext(s, size, k);
    var q := QpNum(s, size);
    var offset, n := BlockOffset(s, size, k), BlockPackets(s, size, k);
    SubRequestsContiguous(offset, n, q, q);
    SubOffsetTotal(n, q);
    ContiguousConcat(Plan(s, size, k), SubRequests(offset, n, q, q), 0, offset, offset + n * MTU);
  }

  /** The requests of the first k blocks tile the buffer up to where block k begins, or to its end. */
  lemma {:induction false} PlanContiguous(s: Settings, size: nat, k: nat)
    requires s.blockSize > 0 && s.blockSize % MTU == 0 && k <= TotalBlocks(s, size)
    ensures Contiguous(Plan(s, size, k), 0, Min(BlockOffset(s, size, k), Padded(size)))
  {
    hide Contiguous, Padded, BlockOffset, TotalBlocks, Plan;
    if k == 0 {
      NothingPlanned(s, size);
    } else {
      PlanContiguous(s, size, k - 1);
      BlockInside(s, size, k - 1);
      PlanContiguousNext(s, size, k - 1);
    }
  }

  lemma NothingPlanned(s: Settings, size: nat)
    requires s.blockSize > 0
    ensures BlockOffset(s, size, 0) == 0 && Contiguous(Plan(s, size, 0), 0, 0)
  {
  }

  lemma PlanGrows(s: Settings, size: nat, k: nat)
    requires s.blockSize > 0 && k < TotalBlocks(s, size)
    ensures |Plan(s, size, k + 1)| == |Plan(s, size, k)| + QpNum(s, size)
  {
    hide Contiguous, SubRequests, SubOffset, QpNum, Padded, BlockOffset, BlockPackets, TotalBlocks;
    var q := QpNum(s, size);
    BlockInside(s, size, k);
    SubRequestsContiguous(BlockOffset(s, size, k), BlockPackets(s, size, k), q, q);
  }

  lemma MulNext(k: nat, q: nat)
    ensures (k + 1) * q == k * q + q
  {
  }

  lemma {:induction false} PlanLength(s: Settings, size: nat, k: nat)
    requires s.blockSize > 0 && k <= TotalBlocks(s, size)
    ensures |Plan(s, size, k)| == k * QpNum(s, size)
  {
    if k > 0 {
      PlanLength(s, size, k - 1);
      PlanGrows(s, size, k - 1);
      hide *;
      MulNext(k - 1, QpNum(s, size));
    }
  }

  lemma IndexBound(j: nat, k: nat, q: nat, i: nat)
    requires j < k && i < q
    ensures j * q + i < k * q && j * q <= (k - 1) * q
  {
    MulStep(q, j, k);
    assert (k - 1) * q == (k - 1 - j) * q + j * q;
  }

  lemma {:induction false} PlanLast(s: Settings, size: nat, j: nat, i: nat)
    requires s.blockSize > 0 && j < TotalBlocks(s, size) && i < QpNum(s, size)
    ensures |Plan(s, size, j)| + i < |Plan(s, size, j + 1)|
    ensures Plan(s, size, j + 1)[|Plan(s, size, j)| + i] == RequestOf(s, size, j, i)
  {
    var q := QpNum(s, size);
    BlockInside(s, size, j);
    var tail := SubRequests(BlockOffset(s, size, j), BlockPackets(s, size, j), q, q);
    SubRequestsContiguous(BlockOffset(s, size, j), BlockPackets(s, size, j), q, q);
    assert Plan(s, size, j + 1) == Plan(s, size, j) + tail;
  }

  /** The k-th request on queue pair i is the (k * q + i)-th overall. */
  lemma {:induction false} PlanIndex(s: Settings, size: nat, k: nat, j: nat, i: nat)
    requires s.blockSize > 0 && j < k <= TotalBlocks(s, size) && i < QpNum(s, size)
    ensures j * QpNum(s, size) + i < |Plan(s, size, k)|
    ensures Plan(s, size, k)[j * QpNum(s, size) + i] == RequestOf(s, size, j, i)
  {
    IndexBound(j, k, QpNum(s, size), i);
    PlanLength(s, size, k);
    if j < k - 1 {
      PlanIndex(s, size, k - 1, j, i);
    } else {
      PlanLength(s, size, j);
      PlanLast(s, size, j, i);
    }
  }

  lemma LastBlockReachesEnd(s: Settings, size: nat)
    requires s.blockSize > 0
    ensures Padded(size) <= BlockOffset(s, size, TotalBlocks(s, size))
  {
    var m := MergedBlock(s, size);
    assert m >= 1 by { assert QpNum(s, size) * s.blockSize >= s.blockSize; }
    var t := TotalBlocks(s, size);
    var x := Padded(size) + m - 1;
    assert x == m * (x / m) + x % m;
    assert t * m == m * t;
  }

  lemma PlanSpans(s: Settings, size: nat)
    requires s.blockSize > 0 && s.blockSize % MTU == 0
    ensures Contiguous(Plan(s, size, TotalBlocks(s, size)), 0, Padded(size))
  {
    PlanContiguous(s, size, TotalBlocks(s, size));
    LastBlockReachesEnd(s, size);
  }

  ghost predicate Covered(rs: seq<Request>, x: nat)
  {
    exists i :: 0 <= i < |rs| && rs[i].Holds(x)
  }

  /** Over all blocks and queue pairs the requests are disjoint and hold exactly the bytes of the caller's buffer
      and what pads it to whole packets. */
  lemma {:induction false} PlanTiles(s: Settings, size: nat, rs: seq<Request>)
    requires s.blockSize > 0 && s.blockSize % MTU == 0 && rs == Plan(s, size, TotalBlocks(s, size))
    ensures forall i, j :: 0 <= i < j < |rs| ==> rs[i].offset + rs[i].length <= rs[j].offset
    ensures size <= Padded(size) < size + MTU && Padded(size) % MTU == 0
    ensures forall x: nat :: Covered(rs, x) <==> x < Padded(size)
  {
    PlanSpans(s, size);
    PaddedIsLeast(size);
    hide Padded;
    forall i, j | 0 <= i < j < |rs| ensures rs[i].offset + rs[i].length <= rs[j].offset {
      ContiguousDisjoint(rs, 0, Padded(size), i, j);
    }
    forall i | 0 <= i < |rs| ensures rs[i].offset + rs[i].length <= Padded(size) {
      ContiguousBounds(rs, 0, Padded(size), i);
    }
    forall x: nat | x < Padded(size) ensures Covered(rs, x) {
      var i := ContiguousCovers(rs, 0, Padded(size), x);
    }
  }
}
