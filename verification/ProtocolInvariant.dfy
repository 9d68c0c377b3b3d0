/** Every step of the allreduce system keeps the invariant. */
module ProtocolInvariant {
  import opened Bitmaps
  import opened Powers
  import opened SwitchPipeline
  import opened Reduction
  import opened Protocol

  // ---- Arithmetic of slots -------------------------------------------------------------------

  lemma Distribute(m: nat, k: nat, a: nat, d: nat)
    ensures (m * k) * a + m * d == m * (k * a + d)
  {
    assert (m * k) * a == m * (k * a);
  }

  lemma RemainderOfRemainder(p: nat, big: nat, m: nat)
    requires m > 0 && big > 0 && big % m == 0
    ensures (p % big) % m == p % m
  {
    Division(big, m);
    Division(p, big);
    Division(p % big, m);
    Recombine(p, big, m, big / m, p / big, p % big, p % big / m, p % big % m);
  }

  lemma Division(x: nat, m: nat)
    requires m > 0
    ensures x == m * (x / m) + x % m && x % m < m
  {
  }

  lemma Recombine(p: nat, big: nat, m: nat, k: nat, a: nat, b: nat, d: nat, e: nat)
    requires p == big * a + b && b == m * d + e && big == m * k && e < m
    ensures p % m == e
  {
    Distribute(m, k, a, d);
    ModUnique(p, m, k * a + d, e);
  }

  lemma {:induction false} ExponentOrder(j: nat, k: nat)
    requires Pow2(j) < Pow2(k)
    ensures j < k
  {
    if k <= j { Pow2Divides(k, j); }
  }

  lemma PsnSpaceIsPow2()
    ensures Pow2(24) == PSN_SPACE
  {
    assert Pow2(4) == 16;
    assert Pow2(8) == 256;
    assert Pow2(12) == 0x1000;
    assert Pow2(16) == 0x1_0000;
    assert Pow2(20) == 0x10_0000;
  }

  /** Because the number of slots is a power of two below 2^24, masking the PSN is taking the
      position modulo the number of slots, however often the PSN has wrapped. */
  lemma {:induction false} SlotIndexIsRemainder(c: Config, p: nat)
    requires Valid(c)
    ensures SlotIndex(c, p) == p % c.Slots()
  {
    hide Pow2;
    PsnSpaceIsPow2();
    ExponentOrder(c.slotBits, 24);
    Pow2Divides(c.slotBits, 24);
    MaskIsRemainder(Psn(p), c.slotBits);
    RemainderOfRemainder(p, PSN_SPACE, c.Slots());
  }

  /** Two positions with the same slot are equal or a whole switch window apart. */
  lemma SameSlotApart(c: Config, p: nat, q: nat)
    requires Valid(c) && SlotIndex(c, p) == SlotIndex(c, q) && p < q
    ensures p + c.Slots() <= q
  {
    SlotIndexIsRemainder(c, p);
    SlotIndexIsRemainder(c, q);
    SameRemainderApart(p, q, c.Slots());
  }

  lemma SameRemainderApart(p: nat, q: nat, m: nat)
    requires m > 0 && p % m == q % m && p < q
    ensures p + m <= q
  {
    MulStep(m, p / m, q / m);
    MulStep(m, q / m, p / m);
    if q / m == p / m {
      assert false;
    }
  }

  lemma NextInSlot(c: Config, p: nat)
    requires Valid(c)
    ensures SlotIndex(c, p + c.Slots()) == SlotIndex(c, p)
  {
    var m := c.Slots();
    SlotIndexIsRemainder(c, p);
    SlotIndexIsRemainder(c, p + m);
    RemainderOfSum(p, m);
  }

  lemma RemainderOfSum(p: nat, m: nat)
    requires m > 0
    ensures (p + m) % m == p % m
  {
    assert p + m == m * (p / m + 1) + p % m;
    ModUnique(p + m, m, p / m + 1, p % m);
  }

  lemma FirstInSlot(c: Config, p: nat)
    requires Valid(c) && p < c.Slots()
    ensures SlotIndex(c, p) == p
  {
    SlotIndexIsRemainder(c, p);
    ModUnique(p, c.Slots(), 0, p);
  }

  // ---- Steps of one host ---------------------------------------------------------------------

  /** A step that only changes host r, and leaves it in order, keeps the invariant. */
  lemma OneHost(c: Config, s: System, r: nat, h: Host)
    requires Inv(c, s) && r < c.n && HostOk(c, s.order, s.released, r, h)
    ensures Inv(c, SetHost(s, r, h))
  {
  }

  lemma PostHost(c: Config, o: History, released: set<nat>, r: nat, h: Host, count: nat)
    requires HostOk(c, o, released, r, h) && h.posted + count <= h.acked + c.window
    ensures HostOk(c, o, released, r, h.(posted := h.posted + count))
  {
  }

  lemma AppendUp(c: Config, o: History, r: nat, h: Host, pkt: Packet)
    requires UplinkOk(c, o, r, h) && pkt.pos < h.posted <= pkt.pos + c.window
    requires r !in Order(o, pkt.pos) ==> pkt.payload == c.input(r, pkt.pos)
    requires forall q: nat :: r in Order(o, q) ==> q < h.posted
    ensures UplinkOk(c, o, r, h.(up := h.up + [pkt]))
  {
  }

  /** The adapter reads the buffer as it is now: the input, or a result the switch already holds. */
  lemma TransmitHost(c: Config, o: History, released: set<nat>, r: nat, h: Host, p: nat)
    requires HostOk(c, o, released, r, h) && HistoryOk(c, o, released) && r < c.n && h.acked <= p < h.posted
    ensures HostOk(c, o, released, r, h.(up := h.up + [Packet(p, Cell(c, r, h, p))]))
  {
    if p < |h.results| {
      assert Full(c, o, p);
      assert r in Order(o, p);
    }
    AppendUp(c, o, r, h, Packet(p, Cell(c, r, h, p)));
  }

  lemma LoseUpHost(c: Config, o: History, released: set<nat>, r: nat, h: Host, i: nat)
    requires HostOk(c, o, released, r, h) && i < |h.up|
    ensures HostOk(c, o, released, r, h.(up := Without(h.up, i)))
  {
    assert UplinkOk(c, o, r, h.(up := Without(h.up, i)));
  }

  lemma LoseDownHost(c: Config, o: History, released: set<nat>, r: nat, h: Host, i: nat)
    requires HostOk(c, o, released, r, h) && i < |h.down|
    ensures HostOk(c, o, released, r, h.(down := Without(h.down, i)))
  {
    assert DownlinkOk(c, o, released, h.(down := Without(h.down, i)));
  }

  /** Positions less than 2^24 apart are told apart by their PSN. */
  lemma PsnTellsApart(p: nat, q: nat)
    requires p < q + PSN_SPACE && q < p + PSN_SPACE && Psn(p) == Psn(q)
    ensures p == q
  {
  }

  /** The expected PSN names one position: everything on a downlink is within a window of it. */
  lemma AcceptedIsNext(c: Config, o: History, released: set<nat>, r: nat, h: Host)
    requires Valid(c) && HostOk(c, o, released, r, h) && HistoryOk(c, o, released) && r < c.n && h.down != []
    ensures h.down[0].pos < h.posted
    ensures Psn(h.down[0].pos) == Psn(|h.results|) <==> h.down[0].pos == |h.results|
  {
    var pkt := h.down[0];
    assert Full(c, o, pkt.pos);
    assert r in Order(o, pkt.pos);
    if Psn(pkt.pos) == Psn(|h.results|) {
      PsnTellsApart(pkt.pos, |h.results|);
    }
  }

  lemma AcceptHost(c: Config, o: History, released: set<nat>, r: nat, h: Host)
    requires HostOk(c, o, released, r, h) && h.down != [] && h.down[0].pos == |h.results| < h.posted
    ensures HostOk(c, o, released, r, h.(down := h.down[1..], results := h.results + [h.down[0].payload]))
  {
  }

  lemma DeliverKeeps(c: Config, s: System, r: nat)
    requires Inv(c, s) && Enabled(c, s, Deliver(r))
    ensures Inv(c, Apply(c, s, Deliver(r)))
  {
    var h := s.hosts[r];
    AcceptedIsNext(c, s.order, s.released, r, h);
    if h.down[0].pos == |h.results| {
      AcceptHost(c, s.order, s.released, r, h);
    } else {
      LoseDownHost(c, s.order, s.released, r, h, 0);
      assert h.down[1..] == Without(h.down, 0);
    }
    OneHost(c, s, r, Apply(c, s, Deliver(r)).hosts[r]);
  }

  /** Every step of a host or a link keeps the invariant. */
  lemma HostStepKeeps(c: Config, s: System, step: Step)
    requires Inv(c, s) && Enabled(c, s, step) && !step.First? && !step.Second? && !step.Deliver? && !step.LoseLoop?
    ensures Inv(c, Apply(c, s, step))
  {
    var h := s.hosts[step.r];
    assert HostOk(c, s.order, s.released, step.r, h);
    hide HistoryOk, LoopOk, SlotsOk;
    match step {
      case Post(r, count) => PostHost(c, s.order, s.released, r, h, count);
      case Transmit(r, p) => TransmitHost(c, s.order, s.released, r, h, p);
      case Ack(r, upto) =>
      case LoseUp(r, i) => LoseUpHost(c, s.order, s.released, r, h, i);
      case LoseDown(r, i) => LoseDownHost(c, s.order, s.released, r, h, i);
    }
    OneHost(c, s, step.r, Apply(c, s, step).hosts[step.r]);
  }

  // ---- Second pass ---------------------------------------------------------------------------

  lemma LoseLoop(c: Config, o: History, released: set<nat>, loop: seq<Looped>, i: nat)
    requires LoopOk(c, o, released, loop) && i < |loop|
    ensures LoopOk(c, o, released, Without(loop, i))
  {
  }

  lemma StartedIsPosted(c: Config, s: System, p: nat) returns (x: nat)
    requires Inv(c, s) && Started(s.order, p)
    ensures x < c.n && x in Order(s.order, p) && p < s.hosts[x].posted
  {
    x := Order(s.order, p)[0];
    assert x in Order(s.order, p);
    assert HostOk(c, s.order, s.released, x, s.hosts[x]);
  }

  /** No host has posted position p, so nobody has contributed to it. */
  lemma NotPostedNotStarted(c: Config, s: System, p: nat)
    requires Inv(c, s) && forall x :: 0 <= x < c.n ==> s.hosts[x].posted <= p
    ensures !Started(s.order, p)
  {
    if Started(s.order, p) {
      var x := StartedIsPosted(c, s, p);
    }
  }

  lemma LoopIsNewest(c: Config, s: System)
    requires Inv(c, s) && s.loop != []
    ensures Newest(c, s.order, s.loop[0].pos)
  {
    var p := s.loop[0].pos;
    forall x | 0 <= x < c.n ensures s.hosts[x].posted <= p + c.Slots() {
      LoopNotOvertaken(c, s, 0, x);
    }
    NotPostedNotStarted(c, s, p + c.Slots());
    assert Full(c, s.order, p) && 0 in Order(s.order, p);
  }

  /** Between the two passes the slot is not reused, so both halves belong to one position. */
  lemma SecondHalfMatches(c: Config, s: System)
    requires Inv(c, s) && s.loop != []
    ensures var e := s.loop[0];
            SecondPass(s.slots[SlotIndex(c, e.pos)], e.payload) == Result(c, s.order, e.pos)
  {
    LoopIsNewest(c, s);
  }

  lemma ReleaseHost(c: Config, o: History, released: set<nat>, x: nat, h: Host, p: nat)
    requires HostOk(c, o, released, x, h)
    ensures HostOk(c, o, released + {p}, x, h)
  {
  }

  lemma AppendDown(c: Config, o: History, released: set<nat>, h: Host, p: nat)
    requires DownlinkOk(c, o, released, h) && p in released && |h.results| <= p + c.window
    requires forall k :: 0 <= k < |h.down| ==> h.down[k].pos < p + c.window
    ensures DownlinkOk(c, o, released, h.(down := h.down + [Packet(p, Result(c, o, p))]))
  {
  }

  lemma AnswerHost(c: Config, o: History, released: set<nat>, loop: seq<Looped>, x: nat, h: Host)
    requires HostOk(c, o, released, x, h) && LoopOk(c, o, released, loop) && loop != []
    ensures var p := loop[0].pos;
            HostOk(c, o, released + {p}, x, h.(down := h.down + [Packet(p, Result(c, o, p))]))
  {
    var p := loop[0].pos;
    if |h.results| > 0 { assert |h.results| - 1 in released; }
    ReleaseHost(c, o, released, x, h, p);
    AppendDown(c, o, released + {p}, h, p);
  }

  lemma ReleaseLoop(c: Config, o: History, released: set<nat>, loop: seq<Looped>)
    requires LoopOk(c, o, released, loop) && loop != []
    ensures LoopOk(c, o, released + {loop[0].pos}, loop[1..])
  {
  }

  lemma SecondKeeps(c: Config, s: System)
    requires Inv(c, s) && Enabled(c, s, Second)
    ensures Inv(c, Apply(c, s, Second))
  {
    var e, s' := s.loop[0], Apply(c, s, Second);
    SecondHalfMatches(c, s);
    forall x | 0 <= x < c.n ensures HostOk(c, s'.order, s'.released, x, s'.hosts[x]) {
      assert HostOk(c, s.order, s.released, x, s.hosts[x]);
      if e.multicast || x == e.rank {
        AnswerHost(c, s.order, s.released, s.loop, x, s.hosts[x]);
      } else {
        ReleaseHost(c, s.order, s.released, x, s.hosts[x], e.pos);
      }
    }
    ReleaseLoop(c, s.order, s.released, s.loop);
  }

  // ---- First pass ----------------------------------------------------------------------------

  function Grown(o: History, p: nat, r: nat): History
  {
    o[p := Order(o, p) + [r]]
  }

  /** A new contribution changes no full position, hence no result anybody relies on. */
  lemma GrownKeepsFull(c: Config, o: History, p: nat, r: nat, q: nat)
    requires r < c.n && r !in Order(o, p) && Full(c, o, q)
    ensures q != p && Full(c, Grown(o, p, r), q) && Result(c, Grown(o, p, r), q) == Result(c, o, q)
  {
  }

  lemma GrownKeepsOthers(c: Config, o: History, released: set<nat>, p: nat, r: nat, x: nat, h: Host)
    requires r < c.n && r !in Order(o, p) && x != r && HistoryOk(c, o, released) && HostOk(c, o, released, x, h)
    ensures HostOk(c, Grown(o, p, r), released, x, h)
  {
    var o' := Grown(o, p, r);
    assert forall q: nat :: x in Order(o', q) <==> x in Order(o, q);
    forall q: nat | q in released ensures Result(c, o', q) == Result(c, o, q) {
      GrownKeepsFull(c, o, p, r, q);
    }
  }

  lemma GrownKeepsSender(c: Config, o: History, released: set<nat>, p: nat, r: nat, h: Host)
    requires r < c.n && r !in Order(o, p) && HistoryOk(c, o, released) && HostOk(c, o, released, r, h)
    requires h.up != [] && h.up[0].pos == p
    ensures HostOk(c, Grown(o, p, r), released, r, h.(up := h.up[1..]))
  {
    var o' := Grown(o, p, r);
    assert forall q: nat :: r in Order(o', q) <==> q == p || r in Order(o, q);
    forall q: nat | q in released ensures Result(c, o', q) == Result(c, o, q) {
      GrownKeepsFull(c, o, p, r, q);
    }
    hide Grown, Order, Result, HistoryOk;
  }

  lemma GrownKeepsHistory(c: Config, o: History, released: set<nat>, p: nat, r: nat)
    requires HistoryOk(c, o, released) && r < c.n && r !in Order(o, p) && !c.empty(p)
    ensures HistoryOk(c, Grown(o, p, r), released)
  {
    var o' := Grown(o, p, r);
    forall q: nat ensures NoRepeat(Order(o', q)) {
      assert NoRepeat(Order(o, q));
    }
    forall q: nat, x: nat | x in Order(o', q) ensures x < c.n && !c.empty(q) {
      assert x in Order(o, q) || (q == p && x == r);
    }
    forall q: nat | q in released ensures Full(c, Grown(o, p, r), q) {
      GrownKeepsFull(c, o, p, r, q);
    }
  }

  lemma GrownKeepsLoop(c: Config, o: History, released: set<nat>, loop: seq<Looped>, p: nat, r: nat)
    requires LoopOk(c, o, released, loop) && r < c.n && r !in Order(o, p)
    ensures LoopOk(c, Grown(o, p, r), released, loop)
  {
    forall i | 0 <= i < |loop|
      ensures Full(c, Grown(o, p, r), loop[i].pos) &&
              Result(c, Grown(o, p, r), loop[i].pos) == Result(c, o, loop[i].pos)
    {
      GrownKeepsFull(c, o, p, r, loop[i].pos);
    }
  }

  /** The slot of position p has not moved on, and all its earlier users are in the past. */
  ghost predicate Ready(c: Config, o: History, p: nat)
  {
    && (forall q: nat :: Started(o, q) ==> q < p + c.Slots())
    && (forall q: nat :: q + c.Slots() <= p ==> Started(o, q))
  }

  lemma OldestIsReady(c: Config, s: System, r: nat)
    requires Inv(c, s) && r < c.n && s.hosts[r].up != []
    ensures Ready(c, s.order, s.hosts[r].up[0].pos)
  {
    var h := s.hosts[r];
    var p := h.up[0].pos;
    forall q: nat | Started(s.order, q) ensures q < p + c.Slots() {
      var x := StartedIsPosted(c, s, q);
      UplinkNotOvertaken(c, s, r, 0, x);
    }
    assert HostOk(c, s.order, s.released, r, h);
    forall q: nat | q + c.Slots() <= p ensures Started(s.order, q) {
      WrittenIsFull(c, s, r, q);
    }
  }

  /** A ready slot holds its position, or one that the version test tells apart, even across PSN wrap. */
  lemma ReadySlot(c: Config, o: History, slots: seq<Slot>, p: nat)
    requires Valid(c) && |slots| == c.Slots() && SlotsOk(c, o, slots) && Ready(c, o, p)
    ensures var slot := slots[SlotIndex(c, p)];
            && (Started(o, p) ==> slot == SlotAfter(InputsAt(c, p), Psn(p), Order(o, p)))
            && (!Started(o, p) ==> slot.version != Psn(p) || slot.bitmap == EmptyBitmap())
  {
    if Started(o, p) {
      assert Newest(c, o, p);
    } else if p < c.Slots() {
      FirstInSlot(c, p);
    } else {
      var q := p - c.Slots();
      NextInSlot(c, q);
      assert Newest(c, o, q);
      if Psn(q) == Psn(p) { PsnTellsApart(q, p); }
    }
  }

  lemma NoOtherInSlot(c: Config, o: History, p: nat, q: nat)
    requires Valid(c) && Ready(c, o, p) && Started(o, q) && SlotIndex(c, q) == SlotIndex(c, p)
    ensures q == p || q + c.Slots() == p || Started(o, q + c.Slots())
  {
    if q < p {
      SameSlotApart(c, q, p);
      if q + c.Slots() < p {
        NextInSlot(c, q);
        SameSlotApart(c, q + c.Slots(), p);
      }
    } else if q > p {
      SameSlotApart(c, p, q);
    }
  }

  lemma EarliestInSlotStarted(c: Config, o: History, p: nat)
    requires Valid(c) && Ready(c, o, p)
    ensures SlotIndex(c, p) == p || Started(o, SlotIndex(c, p))
  {
    var q := SlotIndex(c, p);
    FirstInSlot(c, q);
    if p < c.Slots() {
      FirstInSlot(c, p);
    } else {
      SameSlotApart(c, q, p);
    }
  }

  lemma GrownKeepsNewest(c: Config, o: History, p: nat, r: nat, q: nat)
    requires Valid(c) && Ready(c, o, p) && Newest(c, Grown(o, p, r), q) && q != p
    ensures Newest(c, o, q) && SlotIndex(c, q) != SlotIndex(c, p) && Order(Grown(o, p, r), q) == Order(o, q)
  {
    var o' := Grown(o, p, r);
    assert !Started(o', q + c.Slots());
    assert q + c.Slots() != p;
    if SlotIndex(c, q) == SlotIndex(c, p) { NoOtherInSlot(c, o, p, q); }
  }

  /** Writing position p into its slot leaves every other slot holding what it should. */
  lemma GrownKeepsSlots(c: Config, o: History, slots: seq<Slot>, p: nat, r: nat)
    requires Valid(c) && |slots| == c.Slots() && SlotsOk(c, o, slots) && Ready(c, o, p)
    ensures var o' := Grown(o, p, r);
            SlotsOk(c, o', slots[SlotIndex(c, p) := SlotAfter(InputsAt(c, p), Psn(p), Order(o', p))])
  {
    hide SlotAfter, InputsAt, Psn, BitAnd, Ready;
    var j := SlotIndex(c, p);
    var o' := Grown(o, p, r);
    var slots' := slots[j := SlotAfter(InputsAt(c, p), Psn(p), Order(o', p))];
    forall q: nat | Newest(c, o', q)
      ensures slots'[SlotIndex(c, q)] == SlotAfter(InputsAt(c, q), Psn(q), Order(o', q))
    {
      if q != p { GrownKeepsNewest(c, o, p, r, q); }
    }
    EarliestInSlotStarted(c, o, p);
    assert forall q: nat :: Started(o, q) ==> Started(o', q);
  }

  /** What the first pass does to the oldest packet of an uplink, in terms of history. */
  lemma FirstPassEffect(c: Config, s: System, r: nat)
    requires Inv(c, s) && r < c.n && s.hosts[r].up != []
    requires var pkt := s.hosts[r].up[0]; !c.empty(pkt.pos)
    ensures var pkt := s.hosts[r].up[0];
            var p := pkt.pos;
            var o' := if r in Order(s.order, p) then s.order else Grown(s.order, p, r);
            var out := FirstPass(s.slots[SlotIndex(c, p)], Psn(p), Bit(r), Mask(c.n), pkt.payload);
            && out.slot == SlotAfter(InputsAt(c, p), Psn(p), Order(o', p))
            && (out.full <==> Full(c, o', p))
            && out.payload.lo == Result(c, o', p).lo
            && (out.increase <==> r !in Order(s.order, p))
  {
    var pkt := s.hosts[r].up[0];
    var p := pkt.pos;
    assert HostOk(c, s.order, s.released, r, s.hosts[r]);
    OldestIsReady(c, s, r);
    ReadySlot(c, s.order, s.slots, p);
    var seen := Order(s.order, p);
    assert forall q :: q in seen ==> q < c.n;
    hide Inv, HistoryOk, HostOk, LoopOk, SlotsOk, FirstPass, SlotAfter, Reduced, Bit, Mask, SlotIndex, Psn;
    if r in seen {
      RepeatedContribution(InputsAt(c, p), seen, Psn(p), c.n, r, pkt.payload);
    } else if seen != [] {
      NewContribution(InputsAt(c, p), seen, Psn(p), c.n, r);
    } else {
      FirstContribution(InputsAt(c, p), s.slots[SlotIndex(c, p)], Psn(p), c.n, r);
      assert seen + [r] == [r];
    }
  }

  lemma FirstKeeps(c: Config, s: System, r: nat)
    requires Inv(c, s) && Enabled(c, s, First(r))
    ensures Inv(c, Apply(c, s, First(r)))
  {
    var h := s.hosts[r];
    var p := h.up[0].pos;
    assert HostOk(c, s.order, s.released, r, h);
    if c.empty(p) {
      LoseUpHost(c, s.order, s.released, r, h, 0);
      assert h.up[1..] == Without(h.up, 0);
      OneHost(c, s, r, h.(up := h.up[1..]));
    } else if r in Order(s.order, p) {
      RepeatKeeps(c, s, r);
    } else {
      GrowKeeps(c, s, r);
    }
  }

  /** Appending a full position to the recirculation queue: nothing released or queued is a window ahead. */
  lemma EnqueueKeepsLoop(c: Config, s: System, r: nat, o': History, e: Looped)
    requires Inv(c, s) && r < c.n && s.hosts[r].up != [] && HistoryOk(c, o', s.released)
    requires LoopOk(c, o', s.released, s.loop) && e.rank == r && e.pos == s.hosts[r].up[0].pos
    requires Full(c, o', e.pos) && e.payload.lo == Result(c, o', e.pos).lo
    ensures LoopOk(c, o', s.released, s.loop + [e])
  {
    assert HostOk(c, s.order, s.released, r, s.hosts[r]);
    forall q | q in s.released ensures q < e.pos + c.window {
      assert Full(c, s.order, q) && r in Order(s.order, q);
    }
    forall k | 0 <= k < |s.loop| ensures s.loop[k].pos < e.pos + c.window {
      assert Full(c, s.order, s.loop[k].pos) && r in Order(s.order, s.loop[k].pos);
    }
  }

  lemma RepeatKeeps(c: Config, s: System, r: nat)
    requires Inv(c, s) && Enabled(c, s, First(r))
    requires var p := s.hosts[r].up[0].pos; !c.empty(p) && r in Order(s.order, p)
    ensures Inv(c, Apply(c, s, First(r)))
  {
    var h := s.hosts[r];
    var p := h.up[0].pos;
    var s' := Apply(c, s, First(r));
    assert HostOk(c, s.order, s.released, r, h);
    FirstPassEffect(c, s, r);
    OldestIsReady(c, s, r);
    ReadySlot(c, s.order, s.slots, p);
    assert s'.slots == s.slots;
    LoseUpHost(c, s.order, s.released, r, h, 0);
    assert h.up[1..] == Without(h.up, 0);
    OneHost(c, s, r, h.(up := h.up[1..]));
    if s'.loop != s.loop {
      EnqueueKeepsLoop(c, s, r, s.order, s'.loop[|s.loop|]);
    }
  }

  lemma GrowKeeps(c: Config, s: System, r: nat)
    requires Inv(c, s) && Enabled(c, s, First(r))
    requires var p := s.hosts[r].up[0].pos; !c.empty(p) && r !in Order(s.order, p)
    ensures Inv(c, Apply(c, s, First(r)))
  {
    var h := s.hosts[r];
    var p := h.up[0].pos;
    var s' := Apply(c, s, First(r));
    FirstPassEffect(c, s, r);
    GrownKeepsHistory(c, s.order, s.released, p, r);
    OldestIsReady(c, s, r);
    GrownKeepsSlots(c, s.order, s.slots, p, r);
    GrownKeepsLoop(c, s.order, s.released, s.loop, p, r);
    if s'.loop != s.loop {
      EnqueueKeepsLoop(c, s, r, s'.order, s'.loop[|s.loop|]);
    }
    forall x | 0 <= x < c.n ensures HostOk(c, s'.order, s'.released, x, s'.hosts[x]) {
      assert HostOk(c, s.order, s.released, x, s.hosts[x]);
      if x == r {
        GrownKeepsSender(c, s.order, s.released, p, r, h);
      } else {
        GrownKeepsOthers(c, s.order, s.released, p, r, x, s.hosts[x]);
      }
    }
  }

  /** Every step keeps the invariant, losses and retransmissions included. */
  lemma StepKeepsInv(c: Config, s: System, step: Step)
    requires Inv(c, s) && Enabled(c, s, step)
    ensures Inv(c, Apply(c, s, step))
  {
    match step
    case First(r) => FirstKeeps(c, s, r);
    case Second => SecondKeeps(c, s);
    case Deliver(r) => DeliverKeeps(c, s, r);
    case LoseLoop(i) => LoseLoop(c, s.order, s.released, s.loop, i);
    case _ => HostStepKeeps(c, s, step);
  }
}
