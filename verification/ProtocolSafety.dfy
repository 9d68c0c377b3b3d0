/** What holds in every reachable state of the allreduce system. */
module ProtocolSafety {
  import opened Paths
  import opened SwitchPipeline
  import opened Reduction
  import opened Protocol
  import opened ProtocolInvariant

  ghost predicate Next(c: Config, s: System, s': System)
  {
    |s.slots| == c.Slots() && exists step :: Enabled(c, s, step) && s' == Apply(c, s, step)
  }

  ghost function Steps(c: Config): (System, System) -> bool
  {
    (s, s') => Next(c, s, s')
  }

  /** Reachable by any finite interleaving of steps, with any losses, from the empty group. */
  ghost predicate Reachable(c: Config, s: System)
  {
    Reaches(Steps(c), Initial(c), s)
  }

  lemma NextInv(c: Config, s: System, s': System)
    requires Inv(c, s) && Next(c, s, s')
    ensures Inv(c, s')
  {
    var step :| Enabled(c, s, step) && s' == Apply(c, s, step);
    StepKeepsInv(c, s, step);
  }

  lemma {:induction false} ReachableInv(c: Config, s: System)
    requires Valid(c) && Reachable(c, s)
    ensures Inv(c, s)
  {
    var inv := (s: System) => Inv(c, s);
    forall s, s' | inv(s) && Steps(c)(s, s') ensures inv(s') {
      NextInv(c, s, s');
    }
    InitialInv(c);
    ReachesKeeps(Steps(c), inv, Initial(c), s);
  }

  // ---- Slots ---------------------------------------------------------------------------------

  /** Unacknowledged at some host, queued on an uplink, or recirculating. */
  ghost predicate InFlight(s: System, p: nat)
  {
    || (exists r :: 0 <= r < |s.hosts| && s.hosts[r].acked <= p < s.hosts[r].posted)
    || (exists r, i :: 0 <= r < |s.hosts| && 0 <= i < |s.hosts[r].up| && s.hosts[r].up[i].pos == p)
    || (exists i :: 0 <= i < |s.loop| && s.loop[i].pos == p)
  }

  lemma InFlightIsPosted(c: Config, s: System, p: nat) returns (x: nat)
    requires Inv(c, s) && InFlight(s, p)
    ensures x < c.n && p < s.hosts[x].posted
  {
    if r :| 0 <= r < |s.hosts| && s.hosts[r].acked <= p < s.hosts[r].posted {
      x := r;
    } else if r, i :| 0 <= r < |s.hosts| && 0 <= i < |s.hosts[r].up| && s.hosts[r].up[i].pos == p {
      assert HostOk(c, s.order, s.released, r, s.hosts[r]);
      x := r;
    } else {
      var i :| 0 <= i < |s.loop| && s.loop[i].pos == p;
      assert Full(c, s.order, p) && 0 in Order(s.order, p);
      assert HostOk(c, s.order, s.released, 0, s.hosts[0]);
      x := 0;
    }
  }

  lemma InFlightNotOvertaken(c: Config, s: System, p: nat, x: nat)
    requires Inv(c, s) && InFlight(s, p) && x < c.n
    ensures s.hosts[x].posted <= p + c.Slots()
  {
    if r :| 0 <= r < |s.hosts| && s.hosts[r].acked <= p < s.hosts[r].posted {
      WindowBound(c, s, x, r);
    } else if r, i :| 0 <= r < |s.hosts| && 0 <= i < |s.hosts[r].up| && s.hosts[r].up[i].pos == p {
      UplinkNotOvertaken(c, s, r, i, x);
    } else {
      var i :| 0 <= i < |s.loop| && s.loop[i].pos == p;
      LoopNotOvertaken(c, s, i, x);
    }
  }

  /** Two packets in flight anywhere in the group that map to the same aggregation slot are packets
      of the same position, after any number of calls and of PSN wraps, whatever was lost. */
  lemma {:induction false} SlotsNeverShared(c: Config, s: System, p: nat, q: nat)
    requires Valid(c) && Reachable(c, s)
    requires InFlight(s, p) && InFlight(s, q) && SlotIndex(c, p) == SlotIndex(c, q)
    ensures p == q
  {
    ReachableInv(c, s);
    var x := InFlightIsPosted(c, s, p);
    var y := InFlightIsPosted(c, s, q);
    InFlightNotOvertaken(c, s, p, y);
    InFlightNotOvertaken(c, s, q, x);
    if p < q {
      SameSlotApart(c, p, q);
    } else if q < p {
      SameSlotApart(c, q, p);
    }
  }

  // ---- Results -------------------------------------------------------------------------------

  /** Every result any host has written for a position is the reduction of all hosts' inputs there,
      in one common arrival order, so all hosts hold the same words bit for bit. */
  lemma {:induction false} ResultsAgree(c: Config, s: System, r: nat, q: nat, p: nat)
    requires Valid(c) && Reachable(c, s) && r < |s.hosts| && q < |s.hosts|
    requires p < |s.hosts[r].results| && p < |s.hosts[q].results|
    ensures s.hosts[r].results[p] == s.hosts[q].results[p] == Reduced(InputsAt(c, p), Order(s.order, p))
    ensures multiset(Order(s.order, p)) == multiset(Ranks(c.n))
  {
    ReachableInv(c, s);
    WrittenIsFull(c, s, r, p);
    assert HostOk(c, s.order, s.released, r, s.hosts[r]);
    assert HostOk(c, s.order, s.released, q, s.hosts[q]);
    assert forall x: nat :: x in Order(s.order, p) ==> x < c.n;
    CompleteIsPermutation(Order(s.order, p), c.n);
  }

  /** When the words fit, it is their elementwise sum. */
  lemma {:induction false} ResultsAreSums(c: Config, s: System, r: nat, p: nat)
    requires Valid(c) && Reachable(c, s) && r < |s.hosts| && p < |s.hosts[r].results|
    requires PayloadsFit(InputsAt(c, p), c.n)
    ensures IsElementwiseSum(s.hosts[r].results[p], InputsAt(c, p), c.n)
  {
    ReachableInv(c, s);
    WrittenIsFull(c, s, r, p);
    assert HostOk(c, s.order, s.released, r, s.hosts[r]);
    assert forall x: nat :: x in Order(s.order, p) ==> x < c.n;
    ReducedIsElementwiseSum(InputsAt(c, p), Order(s.order, p), c.n);
  }

  /** A completed packet is a written result: the window opens only over finished positions. */
  lemma {:induction false} CompletionImpliesResult(c: Config, s: System, r: nat)
    requires Valid(c) && Reachable(c, s) && r < |s.hosts|
    ensures s.hosts[r].acked <= |s.hosts[r].results| <= s.hosts[r].posted <= s.hosts[r].acked + c.window
    ensures forall p: nat, q: nat :: p < s.hosts[r].acked && q < c.n ==> q in Order(s.order, p)
  {
    ReachableInv(c, s);
    assert HostOk(c, s.order, s.released, r, s.hosts[r]);
    forall p: nat, q: nat | p < s.hosts[r].acked && q < c.n ensures q in Order(s.order, p) {
      WrittenIsFull(c, s, r, p);
    }
  }
}
