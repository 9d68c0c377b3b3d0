/** One packet through the allreduce data plane: parser test, bitmap register, aggregator
    registers, and the decision to drop, recirculate, multicast or answer the sender. */
module SwitchPipeline {
  import opened Bitmaps
  import opened Saturation

  // ---- Parsing -----------------------------------------------------------------------------

  datatype WriteOp = WriteFirst | WriteMiddle | WriteLast | WriteOnly

  /** UDP (8), BTH (12), RETH (16, only when an address is carried), payload, ICRC (4). */
  function UdpLength(op: WriteOp, payload: nat): nat
  {
    8 + 12 + (if op.WriteFirst? || op.WriteOnly? then 16 else 0) + payload + 4
  }

  /** The parser extracts a payload only at one exact UDP length per opcode. */
  predicate ParsesPayload(op: WriteOp, udpLength: nat)
  {
    match op
    case WriteFirst | WriteOnly => udpLength == 296
    case WriteMiddle | WriteLast => udpLength == 280
  }

  /** Only a write packet with a full payload is aggregated: the length test is one on the payload. */
  lemma ParsesExactly(op: WriteOp, payload: nat)
    ensures ParsesPayload(op, UdpLength(op, payload)) <==> payload == 256
  {
  }

  // ---- Registers ---------------------------------------------------------------------------

  const PAIRS: nat := 32  // aggregator instances, two words each

  type Lanes = v: seq<Word> | |v| == PAIRS
    witness [0, 0, 0, 0, 0, 0, 0, 0, 0, 0, 0, 0, 0, 0, 0, 0,
             0, 0, 0, 0, 0, 0, 0, 0, 0, 0, 0, 0, 0, 0, 0, 0]

  /** The 64 payload words: word `2 * i` is `lo[i]`, word `2 * i + 1` is `hi[i]`. */
  datatype Payload = Payload(lo: Lanes, hi: Lanes)

  /** One aggregation slot: version and bitmap of `reg_bitmap`, and the aggregator pairs. */
  datatype Slot = Slot(version: nat, bitmap: Bitmap, agg0: Lanes, agg1: Lanes)

  function ZeroLanes(): Lanes
  {
    seq(PAIRS, i => 0)
  }

  function AddLanes(a: Lanes, b: Lanes): Lanes
  {
    seq(PAIRS, i requires 0 <= i < PAIRS => SatAdd(a[i], b[i]))
  }

  // ---- First pass --------------------------------------------------------------------------

  datatype Outcome = Outcome(slot: Slot, payload: Payload, full: bool, increase: bool)

  /** The register action returns the old bitmap, or nothing if the slot held another version. */
  function OldBitmap(slot: Slot, version: nat): Bitmap
  {
    if slot.version == version then slot.bitmap else EmptyBitmap()
  }

  /** `increase_bit`: some bit of `bit` is not yet in `seen`. */
  predicate Increases(seen: Bitmap, bit: Bitmap)
  {
    exists k :: 0 <= k < WIDTH && bit[k] && !seen[k]
  }

  function FirstPass(slot: Slot, version: nat, bit: Bitmap, mask: Bitmap, p: Payload): Outcome
  {
    var seen := OldBitmap(slot, version);
    var increase := Increases(seen, bit);
    var slot' := Slot(version, Or(seen, bit), slot.agg0, slot.agg1);
    var full := seen == Xor(bit, mask) || seen == mask;
    if seen == EmptyBitmap() then
      Outcome(slot'.(agg0 := p.lo, agg1 := p.hi), p, full, increase)
    else if increase then
      var agg0, agg1 := AddLanes(slot.agg0, p.lo), AddLanes(slot.agg1, p.hi);
      Outcome(slot'.(agg0 := agg0, agg1 := agg1), p.(lo := agg0), full, increase)
    else
      Outcome(slot', p.(lo := slot.agg0), full, increase)
  }

  /** The second pass picks up the other half of the slot. */
  function SecondPass(slot: Slot, p: Payload): Payload
  {
    p.(hi := slot.agg1)
  }

  // ---- What a slot holds -------------------------------------------------------------------

  type Inputs = nat -> Payload  // by rank

  function FoldLo(inputs: Inputs, order: seq<nat>): Lanes
  {
    if order == [] then ZeroLanes()
    else AddLanes(FoldLo(inputs, order[..|order| - 1]), inputs(order[|order| - 1]).lo)
  }

  function FoldHi(inputs: Inputs, order: seq<nat>): Lanes
  {
    if order == [] then ZeroLanes()
    else AddLanes(FoldHi(inputs, order[..|order| - 1]), inputs(order[|order| - 1]).hi)
  }

  /** The inputs of the ranks in `order`, added in that order. */
  function Reduced(inputs: Inputs, order: seq<nat>): Payload
  {
    Payload(FoldLo(inputs, order), FoldHi(inputs, order))
  }

  /** The slot after the ranks in `order`, each once, were processed for one sequence number. */
  function SlotAfter(inputs: Inputs, version: nat, order: seq<nat>): Slot
  {
    Slot(version, OrAll(order), FoldLo(inputs, order), FoldHi(inputs, order))
  }

  predicate Complete(order: seq<nat>, n: nat)
  {
    forall r: nat :: r < n ==> r in order
  }

  lemma {:induction false} FoldAppend(inputs: Inputs, order: seq<nat>, r: nat)
    ensures FoldLo(inputs, order + [r]) == AddLanes(FoldLo(inputs, order), inputs(r).lo)
    ensures FoldHi(inputs, order + [r]) == AddLanes(FoldHi(inputs, order), inputs(r).hi)
  {
    assert (order + [r])[..|order|] == order;
  }

  lemma AddZero(a: Lanes)
    ensures AddLanes(ZeroLanes(), a) == a
  {
  }

  /** The two equality tests of the send-out stage ask whether all ranks are now in. */
  lemma {:induction false} FullTest(order: seq<nat>, n: nat, r: nat)
    requires r < n <= WIDTH && forall q :: q in order ==> q < n
    ensures OrAll(order) == Xor(Bit(r), Mask(n)) || OrAll(order) == Mask(n) <==> Complete(order + [r], n)
  {
    forall k: nat | k < WIDTH ensures OrAll(order)[k] <==> k in order {
      OrAllMembers(order, k);
    }
    if OrAll(order) == Xor(Bit(r), Mask(n)) || OrAll(order) == Mask(n) {
      forall q: nat | q < n ensures q in order + [r] {
        assert q == r || OrAll(order)[q];
      }
    }
    if Complete(order + [r], n) {
      forall q: nat | q < n && q != r ensures q in order {
        assert q in order + [r];
      }
      if r in order {
        assert OrAll(order) == Mask(n);
      } else {
        assert OrAll(order) == Xor(Bit(r), Mask(n));
      }
    }
  }

  lemma {:induction false} SingleBit(r: nat)
    ensures OrAll([r]) == Bit(r)
  {
    assert OrAll([]) == EmptyBitmap();
    assert [r][..0] == [];
    assert Or(EmptyBitmap(), Bit(r)) == Bit(r);
  }

  lemma {:induction false} SingleReduced(inputs: Inputs, r: nat)
    ensures Reduced(inputs, [r]) == inputs(r)
  {
    assert [r][..0] == [];
    assert FoldLo(inputs, []) == FoldHi(inputs, []) == ZeroLanes();
    AddZero(inputs(r).lo);
    AddZero(inputs(r).hi);
  }

  /** A slot of another version restarts with the new rank alone. */
  lemma {:induction false} FirstContribution(inputs: Inputs, slot: Slot, version: nat, n: nat, r: nat)
    requires r < n <= WIDTH
    requires slot.version != version || slot.bitmap == EmptyBitmap()
    ensures var o := FirstPass(slot, version, Bit(r), Mask(n), inputs(r));
            o.slot == SlotAfter(inputs, version, [r]) && o.increase &&
            (o.full <==> Complete([r], n)) && o.payload == Reduced(inputs, [r])
  {
    SingleBit(r);
    SingleReduced(inputs, r);
    assert Or(EmptyBitmap(), Bit(r)) == Bit(r);
    assert Bit(r)[r] && !EmptyBitmap()[r];
    FullTest([], n, r);
    assert [] + [r] == [r];
  }

  /** A rank that is new to a slot of its own version is added once. */
  lemma {:induction false} NewContribution(inputs: Inputs, order: seq<nat>, version: nat, n: nat, r: nat)
    requires r < n <= WIDTH && order != [] && r !in order && forall q :: q in order ==> q < n
    ensures var o := FirstPass(SlotAfter(inputs, version, order), version, Bit(r), Mask(n), inputs(r));
            o.slot == SlotAfter(inputs, version, order + [r]) && o.increase &&
            (o.full <==> Complete(order + [r], n)) &&
            o.payload.lo == Reduced(inputs, order + [r]).lo
  {
    OrAllAppend(order, r);
    FoldAppend(inputs, order, r);
    OrAllMembers(order, r);
    assert order[0] in order;
    OrAllMembers(order, order[0]);
    assert Bit(r)[r] && !OrAll(order)[r];
    FullTest(order, n, r);
  }

  /** A repeated packet leaves the slot alone and reads it back, whatever it carries. */
  lemma {:induction false} RepeatedContribution(inputs: Inputs, order: seq<nat>, version: nat, n: nat, r: nat,
                                                p: Payload)
    requires r < n <= WIDTH && r in order && forall q :: q in order ==> q < n
    ensures var s := SlotAfter(inputs, version, order);
            var o := FirstPass(s, version, Bit(r), Mask(n), p);
            o.slot == s && !o.increase && (o.full <==> Complete(order, n)) &&
            o.payload.lo == Reduced(inputs, order).lo
  {
    OrIdempotent(order, r);
    OrAllMembers(order, r);
    FullTest(order, n, r);
    assert forall q :: q in order + [r] <==> q in order;
  }
}
