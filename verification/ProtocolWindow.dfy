/** Half the switch window is exactly how far a server may run ahead. */
module ProtocolWindow {
  import opened Powers
  import opened Paths
  import opened Protocol
  import opened ProtocolInvariant
  import opened ProtocolSafety
  import opened ProtocolProgress

  /** All of `Valid` but the relation between the two windows, for a group of at least two. */
  predicate Sized(c: Config)
  {
    && 2 <= c.n <= 32
    && 1 <= c.slotBits && c.Slots() < PSN_SPACE
    && 1 <= c.window
  }

  ghost predicate NeverShares(c: Config)
  {
    forall s, p: nat, q: nat ::
      Reachable(c, s) && InFlight(s, p) && InFlight(s, q) && SlotIndex(c, p) == SlotIndex(c, q) ==> p == q
  }

  function Narrow(c: Config): Config
  {
    c.(window := c.Slots() / 2)
  }

  /** A wider window only allows more. */
  lemma NarrowStep(c: Config, s: System, step: Step)
    requires c.window >= Narrow(c).window && |s.slots| == c.Slots() && Enabled(Narrow(c), s, step)
    ensures Enabled(c, s, step) && Apply(c, s, step) == Apply(Narrow(c), s, step)
  {
  }

  lemma NarrowRunsAreRuns(c: Config, s: System)
    requires c.window >= Narrow(c).window && Reaches(Steps(Narrow(c)), Initial(c), s)
    ensures Reachable(c, s)
  {
    forall a, b | Steps(Narrow(c))(a, b) ensures Steps(c)(a, b) {
      var step :| Enabled(Narrow(c), a, step) && b == Apply(Narrow(c), a, step);
      NarrowStep(c, a, step);
      assert Next(c, a, b);
    }
    ReachesWeakens(Steps(Narrow(c)), Steps(c), Initial(c), s);
  }

  lemma ReachableStep(c: Config, s: System, step: Step)
    requires Reachable(c, s) && |s.slots| == c.Slots() && Enabled(c, s, step)
    ensures Reachable(c, Apply(c, s, step))
  {
    RunStep(c, s, step);
    ReachesTrans(Steps(c), Initial(c), s, Apply(c, s, step));
  }

  function Ahead(c: Config): nat
    requires c.window <= c.Slots()
  {
    c.Slots() + 1 - c.window
  }

  lemma NarrowIsValid(c: Config)
    requires Sized(c) && c.window <= c.Slots() < 2 * c.window
    ensures Valid(Narrow(c)) && Ahead(c) <= Narrow(c).window <= c.window
  {
    HalfOfEven(c.Slots(), Pow2(c.slotBits - 1), c.window);
  }

  lemma HalfOfEven(slots: nat, half: nat, window: nat)
    requires slots == 2 * half && window <= slots < 2 * window && 1 <= half
    ensures slots + 1 - window <= slots / 2 <= window && 1 <= slots / 2 && 2 * (slots / 2) <= slots
  {
  }

  /** Host 0 can get `Ahead` results while host 1 acknowledges nothing. */
  lemma {:induction false} RunAhead(c: Config) returns (s: System)
    requires Sized(c) && c.window <= c.Slots() < 2 * c.window && forall p: nat :: !c.empty(p)
    ensures Reachable(c, s) && |s.slots| == c.Slots() && |s.hosts| == c.n
    ensures s.hosts[1].acked == 0 < s.hosts[1].posted
    ensures s.hosts[0].acked <= |s.hosts[0].results| == s.hosts[0].posted == Ahead(c)
  {
    NarrowIsValid(c);
    InitialInv(Narrow(c));
    s := Advance(Narrow(c), Initial(c), 0, Ahead(c), 1);
    assert HostOk(Narrow(c), s.order, s.released, 0, s.hosts[0]);
    NarrowRunsAreRuns(c, s);
  }

  /** Host 0 then posts a window more, past what host 1 still has to acknowledge. */
  lemma RunPast(c: Config) returns (s: System)
    requires Sized(c) && c.window <= c.Slots() < 2 * c.window && forall p: nat :: !c.empty(p)
    ensures Reachable(c, s) && InFlight(s, 0) && InFlight(s, c.Slots())
  {
    var a := RunAhead(c);
    ReachableStep(c, a, Ack(0, Ahead(c)));
    var b := Apply(c, a, Ack(0, Ahead(c)));
    ReachableStep(c, b, Post(0, c.window));
    s := Apply(c, b, Post(0, c.window));
    assert s.hosts[0].acked <= c.Slots() < s.hosts[0].posted;
    assert s.hosts[1].acked <= 0 < s.hosts[1].posted;
  }

  /** With a window beyond all slots the first post is enough. */
  lemma PostPast(c: Config) returns (s: System)
    requires Sized(c) && c.Slots() < c.window
    ensures Reachable(c, s) && InFlight(s, 0) && InFlight(s, c.Slots())
  {
    var a := Initial(c);
    ReachesSelf(Steps(c), a);
    ReachableStep(c, a, Post(0, c.window));
    s := Apply(c, a, Post(0, c.window));
    assert s.hosts[0].acked <= 0 < c.Slots() < s.hosts[0].posted;
  }

  lemma SlotsRepeat(c: Config)
    requires Sized(c)
    ensures SlotIndex(c, 0) == SlotIndex(c, c.Slots())
  {
    assert Pow2(c.slotBits) == 2 * Pow2(c.slotBits - 1);
    NextInSlot(c.(window := 1), 0);
  }

  /** With any wider window two positions of one slot can be in flight at once. */
  lemma {:induction false} WideWindowShares(c: Config) returns (s: System)
    requires Sized(c) && c.Slots() < 2 * c.window && forall p: nat :: !c.empty(p)
    ensures Reachable(c, s) && InFlight(s, 0) && InFlight(s, c.Slots())
    ensures SlotIndex(c, 0) == SlotIndex(c, c.Slots())
  {
    SlotsRepeat(c);
    hide Reachable, InFlight, SlotIndex;
    if c.window <= c.Slots() { s := RunPast(c); } else { s := PostPast(c); }
  }

  /** Slots are never shared, in any reachable state, if and only if the server window is at most
      half the switch window. */
  lemma {:induction false} HalfWindowIsExact(c: Config)
    requires Sized(c) && forall p: nat :: !c.empty(p)
    ensures NeverShares(c) <==> 2 * c.window <= c.Slots()
  {
    if 2 * c.window <= c.Slots() {
      forall s, p: nat, q: nat |
        Reachable(c, s) && InFlight(s, p) && InFlight(s, q) && SlotIndex(c, p) == SlotIndex(c, q)
        ensures p == q
      {
        SlotsNeverShared(c, s, p, q);
      }
    } else {
      var s := WideWindowShares(c);
    }
  }
}
