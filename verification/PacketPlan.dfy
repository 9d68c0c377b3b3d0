/** The plan of a call in packets: which buffer packet each position of a queue pair carries. */
module PacketPlan {
  import opened Powers
  import opened BlockPlan

  /** A zero-length write still takes one packet, with nothing in it. */
  datatype Content = Nothing | BufferPacket(index: nat)

  function Packets(r: Request): (cs: seq<Content>)
    ensures |cs| >= 1
  {
    if r.length < MTU then [Nothing]
    else seq(r.length / MTU, (k: nat) => BufferPacket(r.offset / MTU + k))
  }

  /** The packets of a sequence of requests. */
  function Flatten(rs: seq<Request>): seq<Content>
  {
    if rs == [] then [] else Flatten(rs[..|rs| - 1]) + Packets(rs[|rs| - 1])
  }

  /** All packets of a call on queue pair i. */
  function Stream(s: Settings, size: nat, i: nat): seq<Content>
    requires s.blockSize > 0
  {
    Flatten(QpPlan(s, size, i, TotalBlocks(s, size)))
  }

  lemma {:induction false} FlattenPrefix(rs: seq<Request>, k: nat)
    requires k <= |rs|
    ensures |Flatten(rs[..k])| <= |Flatten(rs)|
    ensures Flatten(rs)[..|Flatten(rs[..k])|] == Flatten(rs[..k])
    decreases |rs|
  {
    if k == |rs| {
      assert rs[..k] == rs;
    } else {
      FlattenPrefix(rs[..|rs| - 1], k);
      assert rs[..|rs| - 1][..k] == rs[..k];
    }
  }

  lemma OneMore(m: nat, b: nat)
    ensures (m + 1) * b == m * b + b
  {
  }

  lemma {:induction false} FlattenGrowth(rs: seq<Request>, k: nat, b: nat)
    requires k <= |rs| && forall j :: 0 <= j < |rs| ==> |Packets(rs[j])| <= b
    ensures |Flatten(rs)| <= |Flatten(rs[..k])| + (|rs| - k) * b
    decreases |rs|
  {
    if k == |rs| {
      assert rs[..k] == rs;
    } else {
      FlattenGrowth(rs[..|rs| - 1], k, b);
      assert rs[..|rs| - 1][..k] == rs[..k];
      OneMore(|rs| - 1 - k, b);
    }
  }

  lemma {:induction false} FlattenAt(rs: seq<Request>, j: nat, k: nat)
    requires j < |rs| && k < |Packets(rs[j])|
    ensures |Flatten(rs[..j])| + k < |Flatten(rs)|
    ensures Flatten(rs)[|Flatten(rs[..j])| + k] == Packets(rs[j])[k]
  {
    assert rs[..j + 1][..j] == rs[..j];
    assert Flatten(rs[..j + 1]) == Flatten(rs[..j]) + Packets(rs[j]);
    FlattenPrefix(rs, j + 1);
  }

  lemma {:induction false} FlattenLocate(rs: seq<Request>, at: nat) returns (j: nat, k: nat)
    requires at < |Flatten(rs)|
    ensures j < |rs| && k < |Packets(rs[j])| && at == |Flatten(rs[..j])| + k
    ensures Flatten(rs)[at] == Packets(rs[j])[k]
  {
    var front := rs[..|rs| - 1];
    if at < |Flatten(front)| {
      j, k := FlattenLocate(front, at);
      assert front[..j] == rs[..j];
    } else {
      j, k := |rs| - 1, at - |Flatten(front)|;
    }
  }

  // ---- The window ------------------------------------------------------------------------------

  /** The server window in packets. */
  function ServerPackets(s: Settings): nat
  {
    s.switchWindow / 2 / MTU
  }

  lemma DivideBound(n: nat, q: nat, b: nat)
    requires q > 0 && n <= q * b
    ensures n / q <= b && (n % q != 0 ==> n / q < b)
  {
    assert n == q * (n / q) + n % q;
    MulStep(q, b, n / q);
    if n / q == b { assert q * (n / q) == q * b; }
  }

  /** No request of a queue pair is longer than a block. */
  lemma RequestBound(s: Settings, size: nat, j: nat, i: nat)
    requires Usable(s) && j < TotalBlocks(s, size)
    ensures |Packets(RequestOf(s, size, j, i))| <= s.blockSize / MTU
  {
    BlockBytes(s, size, j);
    var q, b, n := QpNum(s, size), s.blockSize / MTU, BlockPackets(s, size, j);
    assert s.blockSize == b * MTU;
    assert MergedBlock(s, size) == (q * b) * MTU;
    DivideBound(n, q, b);
  }

  lemma ScaledProduct(j: nat, m: nat, x: nat)
    requires x == m * MTU
    ensures j * x == (j * m) * MTU
  {
  }

  lemma OutstandingFits(s: Settings, depth: nat)
    requires Usable(s) && depth <= MaxOutstanding(s)
    ensures depth * (s.blockSize / MTU) <= ServerPackets(s)
  {
    var w, b := s.switchWindow / 2, s.blockSize / MTU;
    assert s.blockSize == b * MTU;
    var limit := w / s.blockSize;
    assert limit * s.blockSize <= w by { assert w == s.blockSize * (w / s.blockSize) + w % s.blockSize; }
    ScaledProduct(limit, b, s.blockSize);
    MulStep(b, depth, limit);
  }

  /** Whatever the host loop has outstanding on a queue pair fits the server window: if at most
      `MaxOutstanding` requests are posted and not completed, so are at most `ServerPackets` packets. */
  lemma {:induction false} HostKeepsWindow(s: Settings, size: nat, i: nat, completed: nat, posted: nat)
    requires Usable(s) && completed <= posted <= TotalBlocks(s, size)
    requires posted - completed <= MaxOutstanding(s)
    ensures |Flatten(QpPlan(s, size, i, posted))| <= |Flatten(QpPlan(s, size, i, completed))| + ServerPackets(s)
  {
    var rs := QpPlan(s, size, i, posted);
    assert rs[..completed] == QpPlan(s, size, i, completed);
    forall j | 0 <= j < |rs| ensures |Packets(rs[j])| <= s.blockSize / MTU {
      RequestBound(s, size, j, i);
    }
    FlattenGrowth(rs, completed, s.blockSize / MTU);
    OutstandingFits(s, posted - completed);
  }

  // ---- Every buffer packet travels exactly once ------------------------------------------------

  lemma AlignedSum(a: nat, k: nat, m: nat)
    requires a % MTU == 0
    ensures (a + k * MTU) % MTU == 0 && (m * MTU) % MTU == 0
  {
  }

  lemma RequestAligned(s: Settings, size: nat, j: nat, i: nat)
    requires Usable(s) && j < TotalBlocks(s, size)
    ensures RequestOf(s, size, j, i).offset % MTU == 0 && RequestOf(s, size, j, i).length % MTU == 0
  {
    ProductMod(QpNum(s, size), s.blockSize, MTU);
    ProductMod(j, MergedBlock(s, size), MTU);
    BlockInside(s, size, j);
    var n, q := BlockPackets(s, size, j), QpNum(s, size);
    AlignedSum(BlockOffset(s, size, j), SubOffset(n, q, i), SubPackets(n, q, i));
  }

  /** A packet of a request is a packet of its byte range. */
  lemma PacketInRange(r: Request, k: nat)
    requires r.offset % MTU == 0 && r.length % MTU == 0 && k < |Packets(r)| && Packets(r)[k].BufferPacket?
    ensures r.Holds(Packets(r)[k].index * MTU) && Packets(r)[k].index == r.offset / MTU + k
  {
  }

  lemma RangeHasPacket(r: Request, x: nat)
    requires r.offset % MTU == 0 && r.length % MTU == 0 && r.Holds(x * MTU)
    ensures var k := x - r.offset / MTU;
            0 <= k < |Packets(r)| && Packets(r)[k] == BufferPacket(x)
  {
  }

  lemma IndexSplit(x: nat, k: nat, q: nat)
    requires x < k * q && q > 0
    ensures x / q < k && x % q < q && x == (x / q) * q + x % q
  {
    assert x == q * (x / q) + x % q;
    MulStep(q, k, x / q);
  }

  lemma IndexUnique(j: nat, i: nat, j': nat, i': nat, q: nat)
    requires i < q && i' < q && j * q + i == j' * q + i'
    ensures j == j' && i == i'
  {
    MulStep(q, j, j');
    MulStep(q, j', j);
  }

  lemma CoveredAt(rs: seq<Request>, x: nat) returns (y: nat)
    requires Covered(rs, x)
    ensures y < |rs| && rs[y].Holds(x)
  {
    y :| 0 <= y < |rs| && rs[y].Holds(x);
  }

  /** The block and queue pair whose request covers a byte. */
  lemma {:induction false} FindRequest(s: Settings, size: nat, byte: nat) returns (j: nat, i: nat)
    requires Usable(s) && byte < Padded(size)
    ensures j < TotalBlocks(s, size) && i < QpNum(s, size) && RequestOf(s, size, j, i).Holds(byte)
  {
    var t, q := TotalBlocks(s, size), QpNum(s, size);
    PlanTiles(s, size, Plan(s, size, t));
    var y := CoveredAt(Plan(s, size, t), byte);
    PlanLength(s, size, t);
    IndexSplit(y, t, q);
    j, i := y / q, y % q;
    PlanIndex(s, size, t, j, i);
  }

  predicate Ascending(rs: seq<Request>)
  {
    forall i, j :: 0 <= i < j < |rs| ==> rs[i].offset + rs[i].length <= rs[j].offset
  }

  lemma AscendingUnique(rs: seq<Request>, x: nat, y: nat, y': nat)
    requires Ascending(rs) && y < |rs| && y' < |rs| && rs[y].Holds(x) && rs[y'].Holds(x)
    ensures y == y'
  {
  }

  /** Where a request stands in posting order. */
  lemma {:induction false} Position(s: Settings, size: nat, rs: seq<Request>, j: nat, i: nat) returns (y: nat)
    requires Usable(s) && j < TotalBlocks(s, size) && i < QpNum(s, size)
    requires rs == Plan(s, size, TotalBlocks(s, size))
    ensures y == j * QpNum(s, size) + i && y < |rs| && rs[y] == RequestOf(s, size, j, i)
  {
    PlanIndex(s, size, TotalBlocks(s, size), j, i);
    y := j * QpNum(s, size) + i;
  }

  lemma {:induction false} RequestUnique(s: Settings, size: nat, byte: nat, j: nat, i: nat, j': nat, i': nat)
    requires Usable(s) && j < TotalBlocks(s, size) && j' < TotalBlocks(s, size)
    requires i < QpNum(s, size) && i' < QpNum(s, size)
    requires RequestOf(s, size, j, i).Holds(byte) && RequestOf(s, size, j', i').Holds(byte)
    ensures j == j' && i == i'
  {
    var rs := Plan(s, size, TotalBlocks(s, size));
    PlanTiles(s, size, rs);
    var y := Position(s, size, rs, j, i);
    var y' := Position(s, size, rs, j', i');
    AscendingUnique(rs, byte, y, y');
    IndexUnique(j, i, j', i', QpNum(s, size));
  }

  /** Every packet that holds a byte of the caller's buffer is carried at some position of some queue pair. */
  lemma {:induction false} EveryPacketTravels(s: Settings, size: nat, x: nat) returns (i: nat, at: nat)
    requires Usable(s) && x * MTU < size
    ensures i < QpNum(s, size) && at < |Stream(s, size, i)| && Stream(s, size, i)[at] == BufferPacket(x)
  {
    PaddedIsLeast(size);
    hide Padded, TotalBlocks, QpNum, Flatten, Packets, RequestOf;
    var j;
    j, i := FindRequest(s, size, x * MTU);
    var rs := QpPlan(s, size, i, TotalBlocks(s, size));
    RequestAligned(s, size, j, i);
    RangeHasPacket(rs[j], x);
    var k := x - rs[j].offset / MTU;
    FlattenAt(rs, j, k);
    at := |Flatten(rs[..j])| + k;
  }

  /** And at no other. */
  lemma {:induction false} NoPacketTravelsTwice(s: Settings, size: nat, i: nat, at: nat, i': nat, at': nat)
    requires Usable(s) && i < QpNum(s, size) && i' < QpNum(s, size)
    requires at < |Stream(s, size, i)| && at' < |Stream(s, size, i')|
    requires Stream(s, size, i)[at] == Stream(s, size, i')[at'] != Nothing
    ensures i == i' && at == at'
  {
    var t := TotalBlocks(s, size);
    var j, k := FlattenLocate(QpPlan(s, size, i, t), at);
    var j', k' := FlattenLocate(QpPlan(s, size, i', t), at');
    RequestAligned(s, size, j, i);
    RequestAligned(s, size, j', i');
    PacketInRange(RequestOf(s, size, j, i), k);
    PacketInRange(RequestOf(s, size, j', i'), k');
    RequestUnique(s, size, Stream(s, size, i)[at].index * MTU, j, i, j', i');
  }

  // ---- Zero-length writes ----------------------------------------------------------------------

  /** Two queue pairs, and a single packet left for the last block. */
  predicate HasEmptyWrite(s: Settings, size: nat)
    requires s.blockSize >= MTU
  {
    QpNum(s, size) == 2 && (Padded(size) / MTU) % (2 * (s.blockSize / MTU)) == 1
  }

  /** Block sizes in packets. */
  lemma BlockInPackets(s: Settings, size: nat, j: nat)
    requires Usable(s) && j < TotalBlocks(s, size)
    ensures var m := QpNum(s, size) * (s.blockSize / MTU);
            j * m < Padded(size) / MTU && BlockPackets(s, size, j) == Min(m, Padded(size) / MTU - j * m)
  {
    BlockBytes(s, size, j);
    var b, pk := s.blockSize / MTU, Padded(size) / MTU;
    var m := QpNum(s, size) * b;
    assert s.blockSize == b * MTU && Padded(size) == pk * MTU;
    ScaledProduct(QpNum(s, size), b, s.blockSize);
    ScaledProduct(j, m, MergedBlock(s, size));
  }

  /** In which block a packet falls. */
  lemma BlockExists(s: Settings, size: nat, j: nat)
    requires Usable(s) && j * MergedBlock(s, size) < Padded(size)
    ensures j < TotalBlocks(s, size)
  {
    var m := MergedBlock(s, size);
    assert m >= 1 by { assert QpNum(s, size) * s.blockSize >= s.blockSize; }
    var x := Padded(size) + m - 1;
    MulStep(m, x / m, j + 1);
    assert x == m * (x / m) + x % m;
    assert m * (j + 1) == j * m + m;
  }

  lemma EmptyRequest(s: Settings, size: nat, j: nat, i: nat)
    requires Usable(s) && j < TotalBlocks(s, size) && i < QpNum(s, size)
    requires RequestOf(s, size, j, i).length < MTU
    ensures HasEmptyWrite(s, size)
  {
    BlockInPackets(s, size, j);
    var b, pk, n := s.blockSize / MTU, Padded(size) / MTU, BlockPackets(s, size, j);
    assert SubPackets(n, QpNum(s, size), i) == 0;
    assert n == 1 && QpNum(s, size) == 2;
    assert pk == (2 * b) * j + 1;
    ModUnique(pk, 2 * b, j, 1);
  }

  lemma EmptyRequestExists(s: Settings, size: nat) returns (j: nat)
    requires Usable(s) && HasEmptyWrite(s, size)
    ensures j < TotalBlocks(s, size) && RequestOf(s, size, j, 1).length == 0
  {
    var b, pk := s.blockSize / MTU, Padded(size) / MTU;
    j := pk / (2 * b);
    assert pk == (2 * b) * j + 1;
    assert s.blockSize == b * MTU && Padded(size) == pk * MTU;
    assert j * MergedBlock(s, size) == ((2 * b) * j) * MTU;
    BlockExists(s, size, j);
    BlockInPackets(s, size, j);
    assert BlockPackets(s, size, j) == 1;
  }

  lemma EmptyPacketExists(s: Settings, size: nat) returns (at: nat)
    requires Usable(s) && HasEmptyWrite(s, size)
    ensures QpNum(s, size) == 2 && at < |Stream(s, size, 1)| && Stream(s, size, 1)[at] == Nothing
  {
    var j := EmptyRequestExists(s, size);
    var rs := QpPlan(s, size, 1, TotalBlocks(s, size));
    FlattenAt(rs, j, 0);
    at := |Flatten(rs[..j])|;
  }

  /** A call sends a zero-length write on queue pair 1, and nowhere else, exactly when it uses two queue
      pairs and its packets leave one over for the last block. */
  lemma {:induction false} EmptyWriteExact(s: Settings, size: nat)
    requires Usable(s)
    ensures HasEmptyWrite(s, size) <==>
            exists i: nat, at: nat ::
              i < QpNum(s, size) && at < |Stream(s, size, i)| && Stream(s, size, i)[at] == Nothing
  {
    var t := TotalBlocks(s, size);
    if i: nat, at: nat :| i < QpNum(s, size) && at < |Stream(s, size, i)| && Stream(s, size, i)[at] == Nothing {
      var j, k := FlattenLocate(QpPlan(s, size, i, t), at);
      EmptyRequest(s, size, j, i);
    }
    if HasEmptyWrite(s, size) {
      var at := EmptyPacketExists(s, size);
      assert at < |Stream(s, size, 1)| && Stream(s, size, 1)[at] == Nothing;
    }
  }
}
