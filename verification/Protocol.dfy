/** The allreduce group as a step system: n hosts, lossy first-in-first-out links, and the switch
    with its aggregation slots and recirculation queue.

    Positions count the packets of one queue pair from the moment the group was created, so the
    packet sequence number (PSN) on the wire is the position modulo 2^24. Any number of calls to
    allreduce is one run: `input(r, p)` is what host r's buffer holds for position p when it is posted. */
module Protocol {
  import opened Bitmaps
  import opened Powers
  import opened SwitchPipeline
  import opened Reduction

  const PSN_SPACE: nat := 0x100_0000

  /** `window` is the server window in packets, and the switch window is `2^slotBits` packets, one slot
      each. A position is `empty` when it is the one packet of a zero-length write. */
  datatype Config = Config(n: nat, window: nat, slotBits: nat, input: (nat, nat) -> Payload, empty: nat -> bool)
  {
    function Slots(): nat
    {
      Pow2(slotBits)
    }
  }

  /** The constructor's checks, and the controller's: the window is half the slots, a power of two. */
  predicate Valid(c: Config)
  {
    && 1 <= c.n <= WIDTH
    && 1 <= c.window
    && 2 * c.window <= c.Slots() < PSN_SPACE
  }

  function Psn(p: nat): nat
  {
    p % PSN_SPACE
  }

  /** The sequence number starts at zero, counts up by one and wraps after 24 bits. */
  lemma PsnCounts(p: nat)
    ensures Psn(0) == 0 && Psn(p) < 0x100_0000
    ensures Psn(p + 1) == if Psn(p) == 0xff_ffff then 0 else Psn(p) + 1
  {
  }

  /** The switch masks the PSN to find the slot. */
  function SlotIndex(c: Config, p: nat): (j: nat)
    ensures j < c.Slots()
  {
    BitAnd(Psn(p), c.Slots() - 1)
  }

  function InputsAt(c: Config, p: nat): Inputs
  {
    (r: nat) => c.input(r, p)
  }

  datatype Packet = Packet(pos: nat, payload: Payload)

  /** A packet on its way from the first pass to the second. */
  datatype Looped = Looped(rank: nat, pos: nat, payload: Payload, multicast: bool)

  /** One host: packets posted, packets acknowledged, results written in order, and its two links. */
  datatype Host = Host(posted: nat, acked: nat, results: seq<Payload>, up: seq<Packet>, down: seq<Packet>)

  /** Who contributed to each position, in which order: the switch's history. No step reads it. */
  type History = map<nat, seq<nat>>

  /** `released` records which positions left the second pass; no step reads it either. */
  datatype System = System(
    hosts: seq<Host>, slots: seq<Slot>, loop: seq<Looped>, order: History, released: set<nat>)

  function Order(o: History, p: nat): seq<nat>
  {
    if p in o then o[p] else []
  }

  predicate Started(o: History, p: nat)
  {
    Order(o, p) != []
  }

  predicate Full(c: Config, o: History, p: nat)
  {
    Complete(Order(o, p), c.n)
  }

  /** What the switch owes every host for position p. */
  function Result(c: Config, o: History, p: nat): Payload
  {
    Reduced(InputsAt(c, p), Order(o, p))
  }

  /** The buffer is source and target: once the result is written, a retransmission reads the result. */
  function Cell(c: Config, r: nat, h: Host, p: nat): Payload
  {
    if p < |h.results| then h.results[p] else c.input(r, p)
  }

  function Initial(c: Config): System
  {
    System(
      seq(c.n, i => Host(0, 0, [], [], [])),
      seq(c.Slots(), i => Slot(0, EmptyBitmap(), ZeroLanes(), ZeroLanes())),
      [], map[], {})
  }

  // ---- Steps -------------------------------------------------------------------------------

  datatype Step =
    | Post(r: nat, count: nat)        // the host hands `count` more packets to its adapter
    | Transmit(r: nat, p: nat)        // the adapter sends or resends an unacknowledged packet
    | First(r: nat)                   // the switch takes the oldest packet of host r's uplink
    | Second                          // the switch takes the oldest recirculated packet
    | Deliver(r: nat)                 // host r's adapter takes the oldest packet of its downlink
    | Ack(r: nat, upto: nat)          // an acknowledgement, bounced by the switch, reaches host r
    | LoseUp(r: nat, i: nat)
    | LoseLoop(i: nat)
    | LoseDown(r: nat, i: nat)

  predicate IsLoss(step: Step)
  {
    step.LoseUp? || step.LoseLoop? || step.LoseDown?
  }

  predicate Enabled(c: Config, s: System, step: Step)
  {
    match step
    case Post(r, count) => r < |s.hosts| && s.hosts[r].posted + count <= s.hosts[r].acked + c.window
    case Transmit(r, p) => r < |s.hosts| && s.hosts[r].acked <= p < s.hosts[r].posted
    case First(r) => r < |s.hosts| && s.hosts[r].up != []
    case Second => s.loop != []
    case Deliver(r) => r < |s.hosts| && s.hosts[r].down != []
    case Ack(r, upto) => r < |s.hosts| && s.hosts[r].acked <= upto <= |s.hosts[r].results|
    case LoseUp(r, i) => r < |s.hosts| && i < |s.hosts[r].up|
    case LoseLoop(i) => i < |s.loop|
    case LoseDown(r, i) => r < |s.hosts| && i < |s.hosts[r].down|
  }

  function Without<T>(xs: seq<T>, i: nat): seq<T>
    requires i < |xs|
  {
    xs[..i] + xs[i + 1..]
  }

  function SetHost(s: System, r: nat, h: Host): System
    requires r < |s.hosts|
  {
    s.(hosts := s.hosts[r := h])
  }

  /** A zero-length write does not parse as a payload; its frame is addressed to the switch itself,
      which no unicast entry matches, so it is dropped. */
  function AfterFirst(c: Config, s: System, r: nat): System
    requires |s.slots| == c.Slots() && r < |s.hosts| && s.hosts[r].up != []
  {
    var h := s.hosts[r];
    var pkt := h.up[0];
    var s1 := SetHost(s, r, h.(up := h.up[1..]));
    if c.empty(pkt.pos) then s1
    else
      var j := SlotIndex(c, pkt.pos);
      var o := FirstPass(s.slots[j], Psn(pkt.pos), Bit(r), Mask(c.n), pkt.payload);
      var seen := Order(s.order, pkt.pos);
      s1.(slots := s.slots[j := o.slot],
          loop := if o.full then s.loop + [Looped(r, pkt.pos, o.payload, o.increase)] else s.loop,
          order := if r in seen then s.order else s.order[pkt.pos := seen + [r]])
  }

  function AfterSecond(c: Config, s: System): System
    requires |s.slots| == c.Slots() && s.loop != []
  {
    var e := s.loop[0];
    var pkt := Packet(e.pos, SecondPass(s.slots[SlotIndex(c, e.pos)], e.payload));
    s.(loop := s.loop[1..],
       released := s.released + {e.pos},
       hosts := seq(|s.hosts|, i requires 0 <= i < |s.hosts| =>
         if e.multicast || i == e.rank then s.hosts[i].(down := s.hosts[i].down + [pkt]) else s.hosts[i]))
  }

  /** The adapter accepts only the PSN it expects; it acknowledges anything older without writing. */
  function AfterDeliver(s: System, r: nat): System
    requires r < |s.hosts| && s.hosts[r].down != []
  {
    var h := s.hosts[r];
    var pkt := h.down[0];
    var h1 := h.(down := h.down[1..]);
    SetHost(s, r, if Psn(pkt.pos) == Psn(|h.results|) then h1.(results := h.results + [pkt.payload]) else h1)
  }

  function Apply(c: Config, s: System, step: Step): System
    requires |s.slots| == c.Slots() && Enabled(c, s, step)
  {
    match step
    case Post(r, count) => SetHost(s, r, s.hosts[r].(posted := s.hosts[r].posted + count))
    case Transmit(r, p) => SetHost(s, r, s.hosts[r].(up := s.hosts[r].up + [Packet(p, Cell(c, r, s.hosts[r], p))]))
    case First(r) => AfterFirst(c, s, r)
    case Second => AfterSecond(c, s)
    case Deliver(r) => AfterDeliver(s, r)
    case Ack(r, upto) => SetHost(s, r, s.hosts[r].(acked := upto))
    case LoseUp(r, i) => SetHost(s, r, s.hosts[r].(up := Without(s.hosts[r].up, i)))
    case LoseLoop(i) => s.(loop := Without(s.loop, i))
    case LoseDown(r, i) => SetHost(s, r, s.hosts[r].(down := Without(s.hosts[r].down, i)))
  }

  // ---- Invariant ---------------------------------------------------------------------------

  /** Each host contributes at most once to a position, and only full positions are released. */
  ghost predicate HistoryOk(c: Config, o: History, released: set<nat>)
  {
    && (forall p: nat, r: nat {:trigger r in Order(o, p)} :: r in Order(o, p) ==> r < c.n && !c.empty(p))
    && (forall p: nat :: NoRepeat(Order(o, p)))
    && (forall p: nat :: p in released ==> Full(c, o, p))
  }

  /** The window, and: only posted packets contribute. */
  ghost predicate CountersOk(c: Config, o: History, r: nat, h: Host)
  {
    && h.acked <= |h.results| <= h.posted <= h.acked + c.window
    && forall p: nat :: r in Order(o, p) ==> p < h.posted
  }

  /** Every written result is the reduction of its position. */
  ghost predicate ResultsOk(c: Config, o: History, released: set<nat>, h: Host)
  {
    forall p :: 0 <= p < |h.results| ==> p in released && h.results[p] == Result(c, o, p)
  }

  /** Uplink: a packet still owing its contribution carries the input, and nothing the host has
      already contributed is a window or more ahead of a packet still queued. */
  ghost predicate UplinkOk(c: Config, o: History, r: nat, h: Host)
  {
    && (forall i :: 0 <= i < |h.up| ==>
         h.up[i].pos < h.posted && (r !in Order(o, h.up[i].pos) ==> h.up[i].payload == c.input(r, h.up[i].pos)))
    && (forall i, q: nat {:trigger h.up[i], Order(o, q)} ::
         0 <= i < |h.up| && r in Order(o, q) ==> q < h.up[i].pos + c.window)
    && (forall k, i :: 0 <= k < i < |h.up| ==> h.up[k].pos < h.up[i].pos + c.window)
  }

  /** Downlink: only released results, none a window or more behind the host. */
  ghost predicate DownlinkOk(c: Config, o: History, released: set<nat>, h: Host)
  {
    && (forall i :: 0 <= i < |h.down| ==>
         h.down[i].pos in released && h.down[i].payload == Result(c, o, h.down[i].pos) &&
         |h.results| <= h.down[i].pos + c.window)
    && (forall k, i :: 0 <= k < i < |h.down| ==> h.down[k].pos < h.down[i].pos + c.window)
  }

  ghost predicate HostOk(c: Config, o: History, released: set<nat>, r: nat, h: Host)
  {
    CountersOk(c, o, r, h) && ResultsOk(c, o, released, h) && UplinkOk(c, o, r, h) && DownlinkOk(c, o, released, h)
  }

  /** Recirculation: only full positions, already carrying the first half of the result. */
  ghost predicate LoopOk(c: Config, o: History, released: set<nat>, loop: seq<Looped>)
  {
    && (forall i :: 0 <= i < |loop| ==>
         loop[i].rank < c.n && Full(c, o, loop[i].pos) && loop[i].payload.lo == Result(c, o, loop[i].pos).lo)
    && (forall i, q :: 0 <= i < |loop| && q in released ==> q < loop[i].pos + c.window)
    && (forall k, i :: 0 <= k < i < |loop| ==> loop[k].pos < loop[i].pos + c.window)
  }

  predicate Newest(c: Config, o: History, p: nat)
  {
    Started(o, p) && !Started(o, p + c.Slots())
  }

  /** A slot holds the newest started position that maps to it. */
  ghost predicate SlotsOk(c: Config, o: History, slots: seq<Slot>)
    requires |slots| == c.Slots()
  {
    && (forall p: nat {:trigger Newest(c, o, p)} :: Newest(c, o, p) ==>
         slots[SlotIndex(c, p)] == SlotAfter(InputsAt(c, p), Psn(p), Order(o, p)))
    && (forall p: nat :: p < c.Slots() && !Started(o, p) ==>
         slots[p].version == 0 && slots[p].bitmap == EmptyBitmap())
  }

  ghost predicate Inv(c: Config, s: System)
  {
    && Valid(c)
    && |s.hosts| == c.n
    && |s.slots| == c.Slots()
    && HistoryOk(c, s.order, s.released)
    && (forall r :: 0 <= r < c.n ==> HostOk(c, s.order, s.released, r, s.hosts[r]))
    && LoopOk(c, s.order, s.released, s.loop)
    && SlotsOk(c, s.order, s.slots)
  }

  lemma InitialInv(c: Config)
    requires Valid(c)
    ensures Inv(c, Initial(c))
  {
  }

  // ---- The window ---------------------------------------------------------------------------

  /** No host posts two windows past what any other host has acknowledged. */
  lemma WindowBound(c: Config, s: System, r: nat, q: nat)
    requires Inv(c, s) && r < c.n && q < c.n
    ensures s.hosts[r].posted <= s.hosts[q].acked + 2 * c.window
    ensures |s.hosts[r].results| <= s.hosts[q].posted
  {
    assert HostOk(c, s.order, s.released, r, s.hosts[r]);
    assert HostOk(c, s.order, s.released, q, s.hosts[q]);
    var k := |s.hosts[r].results|;
    if k > 0 {
      assert k - 1 in s.released && Full(c, s.order, k - 1);
      assert q in Order(s.order, k - 1);
    }
  }

  /** Whatever a host has written, everybody has contributed. */
  lemma WrittenIsFull(c: Config, s: System, r: nat, p: nat)
    requires Inv(c, s) && r < c.n && p < |s.hosts[r].results|
    ensures p in s.released && Full(c, s.order, p) && Started(s.order, p)
  {
    assert HostOk(c, s.order, s.released, r, s.hosts[r]);
    assert p in s.released;
    assert 0 in Order(s.order, p);
  }

  /** No packet queued at the switch is overtaken by a position a whole switch window ahead. */
  lemma UplinkNotOvertaken(c: Config, s: System, r: nat, i: nat, x: nat)
    requires Inv(c, s) && r < c.n && i < |s.hosts[r].up| && x < c.n
    ensures s.hosts[x].posted <= s.hosts[r].up[i].pos + c.Slots()
  {
    assert HostOk(c, s.order, s.released, r, s.hosts[r]);
    assert HostOk(c, s.order, s.released, x, s.hosts[x]);
    var p := s.hosts[r].up[i].pos;
    if s.hosts[x].posted > p + c.Slots() {
      WrittenIsFull(c, s, x, p + c.window);
      assert false;
    }
  }

  lemma LoopNotOvertaken(c: Config, s: System, i: nat, x: nat)
    requires Inv(c, s) && i < |s.loop| && x < c.n
    ensures s.hosts[x].posted <= s.loop[i].pos + c.Slots()
  {
    assert HostOk(c, s.order, s.released, x, s.hosts[x]);
    if s.hosts[x].posted > s.loop[i].pos + c.Slots() {
      WrittenIsFull(c, s, x, s.loop[i].pos + c.window);
      assert false;
    }
  }
}
