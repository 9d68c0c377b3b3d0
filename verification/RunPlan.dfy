/** The packets of a whole sequence of allreduce calls: which call and which buffer packet each position of
    a queue pair belongs to, and the group each queue pair forms with its peers. */
module RunPlan {
  import opened Powers
  import opened SwitchPipeline
  import opened Protocol
  import opened BlockPlan
  import opened PacketPlan

  const QPS: nat := 2

  const SWITCH_MEMORY: nat := 0x40_0000

  /** What host r's registered buffer holds for packet x when it begins call k. */
  type Buffers = (nat, nat, nat) -> Payload

  /** n hosts with the same settings make the same calls, of the given sizes. The switch window is
      `2^slotBits` packets. */
  datatype Job = Job(settings: Settings, slotBits: nat, n: nat, sizes: seq<nat>, buffers: Buffers)

  ghost predicate JobOk(j: Job)
  {
    && Usable(j.settings) && 1 <= j.n <= 32
    && Pow2(j.slotBits) * MTU == j.settings.switchWindow <= SWITCH_MEMORY
  }

  lemma {:induction false} PowerSplit(j: nat, k: nat)
    requires j <= k
    ensures Pow2(k) == Pow2(k - j) * Pow2(j)
  {
    if j < k {
      PowerSplit(j, k - 1);
      assert Pow2(k) == 2 * (Pow2(k - 1 - j) * Pow2(j));
    }
  }

  /** Settings that the constructor accepts, within the switch's memory, are those of a job. */
  lemma {:induction false} AcceptedMakesJob(s: Settings, worldSize: nat, rank: int, sizes: seq<nat>, buffers: Buffers)
    returns (j: Job)
    requires Accepted(worldSize, rank, s) && Usable(s) && s.switchWindow <= SWITCH_MEMORY
    ensures JobOk(j) && j.settings == s && j.n == worldSize && j.sizes == sizes && j.buffers == buffers
  {
    var k := Exponent(s.switchWindow);
    if k < 8 { Pow2Divides(k, 8); }
    assert Pow2(8) == 256 by { assert Pow2(4) == 16; }
    PowerSplit(8, k);
    j := Job(s, k - 8, worldSize, sizes, buffers);
  }

  lemma JobIsAccepted(j: Job, rank: int)
    requires JobOk(j) && rank < j.n
    ensures Accepted(j.n, rank, j.settings)
  {
    TimesMtu(j.slotBits);
    Pow2IsPower2(j.slotBits + 8);
    hide Pow2, BitAnd;
  }

  /** The constructor's checks leave exactly the settings and ranks of a job, given usable sizes within memory. */
  lemma {:induction false} AcceptedIffJob(s: Settings, worldSize: nat, rank: int, sizes: seq<nat>, buffers: Buffers)
    requires Usable(s) && s.switchWindow <= SWITCH_MEMORY
    ensures Accepted(worldSize, rank, s) <==>
            rank < worldSize && exists bits: nat :: JobOk(Job(s, bits, worldSize, sizes, buffers))
  {
    if Accepted(worldSize, rank, s) {
      var j := AcceptedMakesJob(s, worldSize, rank, sizes, buffers);
      assert j == Job(s, j.slotBits, worldSize, sizes, buffers);
    }
    if bits: nat :| rank < worldSize && JobOk(Job(s, bits, worldSize, sizes, buffers)) {
      JobIsAccepted(Job(s, bits, worldSize, sizes, buffers), rank);
    }
  }

  lemma TimesMtu(k: nat)
    ensures Pow2(k + 8) == Pow2(k) * MTU && (Pow2(k) * MTU) % MTU == 0
  {
    assert Pow2(8) == 256 by { assert Pow2(4) == 16; }
    PowerSplit(8, k + 8);
  }

  // ---- Positions -------------------------------------------------------------------------------

  function Qps(j: Job, k: nat): (q: nat)
    requires k < |j.sizes|
    ensures 1 <= q <= QPS
  {
    QpNum(j.settings, j.sizes[k])
  }

  function Blocks(j: Job, k: nat): nat
    requires j.settings.blockSize > 0 && k < |j.sizes|
  {
    TotalBlocks(j.settings, j.sizes[k])
  }

  /** The packets of call k on queue pair i; a call on one queue pair sends nothing on the other. */
  function CallStream(j: Job, k: nat, i: nat): seq<Content>
    requires j.settings.blockSize > 0 && k < |j.sizes|
  {
    if i < Qps(j, k) then Stream(j.settings, j.sizes[k], i) else []
  }

  /** How many packets the first b blocks of call k are on queue pair i. */
  function Packed(j: Job, k: nat, i: nat, b: nat): nat
    requires j.settings.blockSize > 0 && k < |j.sizes| && b <= Blocks(j, k)
  {
    if i < Qps(j, k) then |Flatten(QpPlan(j.settings, j.sizes[k], i, b))| else 0
  }

  /** The position on queue pair i at which call k begins. */
  function Base(j: Job, k: nat, i: nat): nat
    requires j.settings.blockSize > 0 && k <= |j.sizes|
  {
    if k == 0 then 0 else Base(j, k - 1, i) + |CallStream(j, k - 1, i)|
  }

  lemma PackedGrows(j: Job, k: nat, i: nat, b: nat, b': nat)
    requires j.settings.blockSize > 0 && k < |j.sizes| && b <= b' <= Blocks(j, k)
    ensures Packed(j, k, i, b) <= Packed(j, k, i, b')
  {
    if i < Qps(j, k) {
      var rs := QpPlan(j.settings, j.sizes[k], i, b');
      assert rs[..b] == QpPlan(j.settings, j.sizes[k], i, b);
      FlattenPrefix(rs, b);
    }
  }

  lemma PackedAll(j: Job, k: nat, i: nat)
    requires j.settings.blockSize > 0 && k < |j.sizes|
    ensures Packed(j, k, i, Blocks(j, k)) == |CallStream(j, k, i)|
    ensures Packed(j, k, i, 0) == 0
  {
    if i < Qps(j, k) { assert QpPlan(j.settings, j.sizes[k], i, 0) == []; }
  }

  lemma {:induction false} BaseGrows(j: Job, k: nat, k': nat, i: nat)
    requires j.settings.blockSize > 0 && k <= k' <= |j.sizes|
    ensures Base(j, k, i) <= Base(j, k', i)
  {
    hide CallStream;
    if k < k' { BaseGrows(j, k, k' - 1, i); }
  }

  /** Blocks within the depth limit are packets within the server window. */
  lemma PackedFitsWindow(j: Job, k: nat, i: nat, completed: nat, posted: nat)
    requires Usable(j.settings) && k < |j.sizes| && completed <= posted <= Blocks(j, k)
    requires posted - completed <= MaxOutstanding(j.settings)
    ensures Packed(j, k, i, posted) <= Packed(j, k, i, completed) + ServerPackets(j.settings)
  {
    if i < Qps(j, k) { HostKeepsWindow(j.settings, j.sizes[k], i, completed, posted); }
  }

  // ---- The group of a queue pair ---------------------------------------------------------------

  /** Where a packet comes from. */
  datatype Origin = Origin(call: nat, content: Content)

  function Origins(j: Job, k: nat, i: nat): (os: seq<Origin>)
    requires j.settings.blockSize > 0 && k <= |j.sizes|
    ensures |os| == Base(j, k, i)
  {
    if k == 0 then []
    else
      var cs := CallStream(j, k - 1, i);
      Origins(j, k - 1, i) + seq(|cs|, at requires 0 <= at < |cs| => Origin(k - 1, cs[at]))
  }

  /** Position `Base(k) + at` is packet `at` of call k. */
  lemma {:induction false} OriginAt(j: Job, m: nat, k: nat, i: nat, at: nat)
    requires j.settings.blockSize > 0 && k < m <= |j.sizes| && at < |CallStream(j, k, i)|
    ensures Base(j, k, i) + at < Base(j, m, i)
    ensures Origins(j, m, i)[Base(j, k, i) + at] == Origin(k, CallStream(j, k, i)[at])
  {
    hide CallStream;
    if k < m - 1 { OriginAt(j, m - 1, k, i, at); }
  }

  function InputAt(j: Job, i: nat, r: nat, p: nat): Payload
    requires j.settings.blockSize > 0
  {
    var os := Origins(j, |j.sizes|, i);
    if p < |os| && os[p].content.BufferPacket? then j.buffers(os[p].call, r, os[p].content.index)
    else Payload(ZeroLanes(), ZeroLanes())
  }

  predicate EmptyAt(j: Job, i: nat, p: nat)
    requires j.settings.blockSize > 0
  {
    var os := Origins(j, |j.sizes|, i);
    p < |os| && os[p].content == Nothing
  }

  function Channel(j: Job, i: nat): Config
    requires j.settings.blockSize > 0
  {
    Config(j.n, ServerPackets(j.settings), j.slotBits,
           (r: nat, p: nat) => InputAt(j, i, r, p), (p: nat) => EmptyAt(j, i, p))
  }

  /** The group meets the protocol's assumptions. */
  lemma {:induction false} ChannelIsValid(j: Job, i: nat)
    requires JobOk(j)
    ensures Valid(Channel(j, i))
    ensures Channel(j, i).Slots() * MTU == j.settings.switchWindow
    ensures Channel(j, i).window == ServerPackets(j.settings)
  {
  }

  /** What the group carries at packet `at` of call k. */
  lemma ChannelAt(j: Job, k: nat, i: nat, at: nat)
    requires j.settings.blockSize > 0 && k < |j.sizes| && at < |CallStream(j, k, i)|
    ensures var (p, content) := (Base(j, k, i) + at, CallStream(j, k, i)[at]);
            && p < Base(j, k + 1, i)
            && (Channel(j, i).empty(p) <==> content == Nothing)
            && (content.BufferPacket? ==> forall r: nat :: Channel(j, i).input(r, p) == j.buffers(k, r, content.index))
  {
    hide CallStream, Origins, Base;
    OriginAt(j, |j.sizes|, k, i, at);
    OriginAt(j, k + 1, k, i, at);
  }

  /** No position of a block of a call without a zero-length write is empty. */
  lemma CallHasNoEmpty(j: Job, k: nat, i: nat, p: nat)
    requires Usable(j.settings) && k < |j.sizes| && !HasEmptyWrite(j.settings, j.sizes[k])
    requires Base(j, k, i) <= p < Base(j, k + 1, i)
    ensures !Channel(j, i).empty(p)
  {
    var at := p - Base(j, k, i);
    OriginAt(j, |j.sizes|, k, i, at);
    EmptyWriteExact(j.settings, j.sizes[k]);
    assert CallStream(j, k, i)[at] == Stream(j.settings, j.sizes[k], i)[at];
  }

  /** A call with one has an empty position on one of its queue pairs. */
  lemma CallHasEmpty(j: Job, k: nat) returns (i: nat, p: nat)
    requires Usable(j.settings) && k < |j.sizes| && HasEmptyWrite(j.settings, j.sizes[k])
    ensures i < QPS && Base(j, k, i) <= p < Base(j, k + 1, i) && Channel(j, i).empty(p)
  {
    hide Stream, HasEmptyWrite, Base, Origins, Channel, QpNum;
    var at := EmptyPacketExists(j.settings, j.sizes[k]);
    i, p := 1, Base(j, k, 1) + at;
    ChannelAt(j, k, 1, at);
  }
}
