/** The group's packets can always be moved on: from every state of the invariant, everything that all
    hosts have posted can be completed without posting more, unless a zero-length write is in the way. */
module ProtocolProgress {
  import opened Paths
  import opened SwitchPipeline
  import opened Protocol
  import opened ProtocolInvariant
  import opened ProtocolSafety

  // ---- Continuations ---------------------------------------------------------------------------

  /** A step of the adapters and the switch that loses nothing. */
  predicate Conveys(step: Step)
  {
    !IsLoss(step) && !step.Post?
  }

  ghost predicate MovesNext(c: Config, s: System, s': System)
  {
    |s.slots| == c.Slots() && exists step :: Conveys(step) && Enabled(c, s, step) && s' == Apply(c, s, step)
  }

  ghost function Moving(c: Config): (System, System) -> bool
  {
    (s, s') => MovesNext(c, s, s')
  }

  /** s' can follow s without loss and without a host posting anything. */
  ghost predicate CanMove(c: Config, s: System, s': System)
  {
    Reaches(Moving(c), s, s')
  }

  lemma CanMoveSelf(c: Config, s: System)
    ensures CanMove(c, s, s)
  {
    ReachesSelf(Moving(c), s);
  }

  lemma CanMoveTrans(c: Config, a: System, b: System, d: System)
    requires CanMove(c, a, b) && CanMove(c, b, d)
    ensures CanMove(c, a, d)
  {
    ReachesTrans(Moving(c), a, b, d);
  }

  lemma MoveStep(c: Config, s: System, step: Step)
    requires Inv(c, s) && Enabled(c, s, step) && Conveys(step)
    ensures CanMove(c, s, Apply(c, s, step)) && Inv(c, Apply(c, s, step))
  {
    var s' := Apply(c, s, step);
    StepKeepsInv(c, s, step);
    assert MovesNext(c, s, s');
    ReachesStep(Moving(c), s, s');
  }

  // ---- Draining the links ----------------------------------------------------------------------

  predicate Queued(pkts: seq<Packet>, d: nat)
  {
    exists i :: 0 <= i < |pkts| && pkts[i].pos == d
  }

  predicate Looping(loop: seq<Looped>, y: nat, d: nat)
  {
    exists i :: 0 <= i < |loop| && loop[i].pos == d && (loop[i].rank == y || loop[i].multicast)
  }

  lemma QueuedTail(pkts: seq<Packet>, d: nat)
    requires Queued(pkts, d) && pkts[0].pos != d
    ensures Queued(pkts[1..], d)
  {
    var i :| 0 <= i < |pkts| && pkts[i].pos == d;
    assert pkts[1..][i - 1].pos == d;
  }

  lemma QueuedAppend(pkts: seq<Packet>, pkt: Packet, d: nat)
    requires Queued(pkts, d) || pkt.pos == d
    ensures Queued(pkts + [pkt], d)
  {
    if Queued(pkts, d) {
      var i :| 0 <= i < |pkts| && pkts[i].pos == d;
      assert (pkts + [pkt])[i].pos == d;
    } else {
      assert (pkts + [pkt])[|pkts|].pos == d;
    }
  }

  lemma LoopingTail(loop: seq<Looped>, y: nat, d: nat)
    requires Looping(loop, y, d) && !(loop[0].pos == d && (loop[0].rank == y || loop[0].multicast))
    ensures Looping(loop[1..], y, d)
  {
    var i :| 0 <= i < |loop| && loop[i].pos == d && (loop[i].rank == y || loop[i].multicast);
    assert loop[1..][i - 1] == loop[i];
  }

  lemma LoopingAppend(loop: seq<Looped>, e: Looped, y: nat, d: nat)
    requires Looping(loop, y, d) || (e.pos == d && (e.rank == y || e.multicast))
    ensures Looping(loop + [e], y, d)
  {
    if Looping(loop, y, d) {
      var i :| 0 <= i < |loop| && loop[i].pos == d && (loop[i].rank == y || loop[i].multicast);
      assert (loop + [e])[i] == loop[i];
    } else {
      assert (loop + [e])[|loop|] == e;
    }
  }

  /** Host x has contributed to position d, or a packet that will is on its way. */
  predicate Contributing(s: System, x: nat, d: nat)
    requires x < |s.hosts|
  {
    x in Order(s.order, d) || Queued(s.hosts[x].up, d)
  }

  /** Host y has the result of position d, or one that will be accepted is on its way. */
  ghost predicate Destined(c: Config, s: System, y: nat, d: nat)
    requires y < |s.hosts|
  {
    || d < |s.hosts[y].results|
    || Queued(s.hosts[y].down, d)
    || Looping(s.loop, y, d)
    || (Full(c, s.order, d) && Queued(s.hosts[y].up, d))
  }

  /** If position d is complete, or once it is, host y gets the result without asking again. */
  ghost predicate Assured(c: Config, s: System, y: nat, d: nat)
    requires y < |s.hosts|
  {
    Full(c, s.order, d) ==> Destined(c, s, y, d)
  }

  /** s' follows s by moving packets only; nothing on its way is lost, and what completes reaches everybody. */
  ghost predicate Forward(c: Config, s: System, s': System)
  {
    && |s.hosts| == |s'.hosts| == c.n
    && (forall r :: 0 <= r < c.n ==>
         s'.hosts[r].posted == s.hosts[r].posted && s'.hosts[r].acked == s.hosts[r].acked &&
         |s.hosts[r].results| <= |s'.hosts[r].results|)
    && (forall x: nat, d: nat :: x < c.n && !c.empty(d) && Contributing(s, x, d) ==> Contributing(s', x, d))
    && (forall y: nat, d: nat :: y < c.n && !c.empty(d) && d <= |s.hosts[y].results| && Assured(c, s, y, d) ==>
         Assured(c, s', y, d))
  }

  lemma ForwardTrans(c: Config, a: System, b: System, d: System)
    requires Forward(c, a, b) && Forward(c, b, d)
    ensures Forward(c, a, d)
  {
    hide Contributing, Assured;
  }

  lemma FirstKeepsContributing(c: Config, s: System, r: nat, x: nat, d: nat)
    requires Inv(c, s) && Enabled(c, s, First(r)) && x < c.n && !c.empty(d) && Contributing(s, x, d)
    ensures Contributing(Apply(c, s, First(r)), x, d)
  {
    if x == r && x !in Order(s.order, d) && d != s.hosts[r].up[0].pos { QueuedTail(s.hosts[r].up, d); }
  }

  lemma FirstKeepsDestined(c: Config, s: System, r: nat, y: nat, d: nat)
    requires Inv(c, s) && Enabled(c, s, First(r)) && y < c.n && !c.empty(d) && Destined(c, s, y, d)
    ensures Destined(c, Apply(c, s, First(r)), y, d)
  {
    var s' := Apply(c, s, First(r));
    var p := s.hosts[r].up[0].pos;
    if Looping(s.loop, y, d) {
      if s'.loop != s.loop { LoopingAppend(s.loop, s'.loop[|s.loop|], y, d); }
    } else if Full(c, s.order, d) && Queued(s.hosts[y].up, d) {
      assert Full(c, s'.order, d);
      if y == r {
        if d == p {
          FirstPassEffect(c, s, r);
          LoopingAppend(s.loop, s'.loop[|s.loop|], y, d);
        } else {
          QueuedTail(s.hosts[r].up, d);
        }
      }
    }
  }

  /** What the first pass sends back. The packet that completes a position sends its result to everybody, a
      repeat of a complete position to its sender alone, and any other packet nothing. */
  lemma FirstSendsBack(c: Config, s: System, r: nat)
    requires Inv(c, s) && Enabled(c, s, First(r)) && !c.empty(s.hosts[r].up[0].pos)
    ensures var (p, s') := (s.hosts[r].up[0].pos, Apply(c, s, First(r)));
            && (!Full(c, s'.order, p) ==> s'.loop == s.loop)
            && (Full(c, s'.order, p) ==>
                  && |s'.loop| == |s.loop| + 1 && s'.loop[..|s.loop|] == s.loop
                  && s'.loop[|s.loop|].rank == r && s'.loop[|s.loop|].pos == p
                  && (s'.loop[|s.loop|].multicast <==> !Full(c, s.order, p)))
  {
    FirstPassEffect(c, s, r);
    hide HistoryOk, HostOk, LoopOk, SlotsOk, FirstPass, SlotAfter, Reduced;
    if r !in Order(s.order, s.hosts[r].up[0].pos) { assert r < c.n; }
  }

  lemma FirstAssures(c: Config, s: System, r: nat, y: nat, d: nat)
    requires Inv(c, s) && Enabled(c, s, First(r)) && y < c.n && !c.empty(d) && Assured(c, s, y, d)
    ensures Assured(c, Apply(c, s, First(r)), y, d)
  {
    var s' := Apply(c, s, First(r));
    if Full(c, s.order, d) {
      FirstKeepsDestined(c, s, r, y, d);
    } else if Full(c, s'.order, d) {
      hide HistoryOk, HostOk, LoopOk, SlotsOk, FirstPass, SlotAfter, Reduced;
      assert d == s.hosts[r].up[0].pos;
      FirstSendsBack(c, s, r);
      assert s'.loop == s.loop + [s'.loop[|s.loop|]];
      LoopingAppend(s.loop, s'.loop[|s.loop|], y, d);
    }
  }

  lemma FirstForward(c: Config, s: System, r: nat)
    requires Inv(c, s) && Enabled(c, s, First(r))
    ensures Forward(c, s, Apply(c, s, First(r)))
  {
    var s' := Apply(c, s, First(r));
    forall x: nat, d: nat | x < c.n && !c.empty(d) && Contributing(s, x, d) ensures Contributing(s', x, d) {
      FirstKeepsContributing(c, s, r, x, d);
    }
    hide Contributing, Assured;
    forall y: nat, d: nat | y < c.n && !c.empty(d) && Assured(c, s, y, d) ensures Assured(c, s', y, d) {
      FirstAssures(c, s, r, y, d);
    }
  }

  lemma SecondForward(c: Config, s: System)
    requires Inv(c, s) && Enabled(c, s, Second)
    ensures Forward(c, s, Apply(c, s, Second))
  {
    hide HistoryOk, HostOk, LoopOk, SlotsOk, Full, SecondPass;
    var s' := Apply(c, s, Second);
    var e := s.loop[0];
    var pkt := Packet(e.pos, SecondPass(s.slots[SlotIndex(c, e.pos)], e.payload));
    forall y: nat, d: nat | y < c.n && !c.empty(d) && d <= |s.hosts[y].results| && Assured(c, s, y, d)
      ensures Assured(c, s', y, d)
    {
      if Queued(s.hosts[y].down, d) {
        if e.multicast || y == e.rank { QueuedAppend(s.hosts[y].down, pkt, d); }
      } else if Looping(s.loop, y, d) {
        if e.pos == d && (e.rank == y || e.multicast) {
          QueuedAppend(s.hosts[y].down, pkt, d);
        } else {
          LoopingTail(s.loop, y, d);
        }
      }
    }
  }

  lemma DeliverForward(c: Config, s: System, r: nat)
    requires Inv(c, s) && Enabled(c, s, Deliver(r))
    ensures Forward(c, s, Apply(c, s, Deliver(r)))
  {
    hide HistoryOk, HostOk, LoopOk, SlotsOk, Full;
    var s' := Apply(c, s, Deliver(r));
    forall y: nat, d: nat | y < c.n && !c.empty(d) && d <= |s.hosts[y].results| && Assured(c, s, y, d)
      ensures Assured(c, s', y, d)
    {
      if y == r && Queued(s.hosts[r].down, d) && s.hosts[r].down[0].pos != d {
        QueuedTail(s.hosts[r].down, d);
      }
    }
  }

  predicate Idle(s: System)
  {
    s.loop == [] && forall r :: 0 <= r < |s.hosts| ==> s.hosts[r].up == [] && s.hosts[r].down == []
  }

  function UpTotal(hosts: seq<Host>): nat
  {
    if hosts == [] then 0 else |hosts[0].up| + UpTotal(hosts[1..])
  }

  function DownTotal(hosts: seq<Host>): nat
  {
    if hosts == [] then 0 else |hosts[0].down| + DownTotal(hosts[1..])
  }

  lemma {:induction false} TotalsOfUpdate(hosts: seq<Host>, r: nat, h: Host)
    requires r < |hosts|
    ensures UpTotal(hosts[r := h]) + |hosts[r].up| == UpTotal(hosts) + |h.up|
    ensures DownTotal(hosts[r := h]) + |hosts[r].down| == DownTotal(hosts) + |h.down|
  {
    if r == 0 {
      assert hosts[0 := h][1..] == hosts[1..];
    } else {
      TotalsOfUpdate(hosts[1..], r - 1, h);
      assert hosts[r := h][1..] == hosts[1..][r - 1 := h];
    }
  }

  lemma {:induction false} SameUpTotal(a: seq<Host>, b: seq<Host>)
    requires |a| == |b| && forall i :: 0 <= i < |a| ==> a[i].up == b[i].up
    ensures UpTotal(a) == UpTotal(b)
  {
    if a != [] { SameUpTotal(a[1..], b[1..]); }
  }

  /** A step that moves the oldest packet of some queue. */
  predicate Moves(step: Step)
  {
    step.First? || step.Second? || step.Deliver?
  }

  ghost predicate CarriesNext(c: Config, s: System, s': System)
  {
    |s.slots| == c.Slots() && exists step :: Moves(step) && Enabled(c, s, step) && s' == Apply(c, s, step)
  }

  ghost function Carrying(c: Config): (System, System) -> bool
  {
    (s, s') => CarriesNext(c, s, s')
  }

  /** s' can follow s with no host sending anything. */
  ghost predicate CanCarry(c: Config, s: System, s': System)
  {
    Reaches(Carrying(c), s, s')
  }

  lemma CarryIsMove(c: Config, s: System, s': System)
    requires CanCarry(c, s, s')
    ensures CanMove(c, s, s')
  {
    forall a, b | Carrying(c)(a, b) ensures Moving(c)(a, b) {
      var step :| Moves(step) && Enabled(c, a, step) && b == Apply(c, a, step);
      assert Conveys(step);
    }
    ReachesWeakens(Carrying(c), Moving(c), s, s');
  }

  lemma MoveForward(c: Config, s: System, step: Step)
    requires Inv(c, s) && Enabled(c, s, step) && Moves(step)
    ensures Inv(c, Apply(c, s, step)) && CanCarry(c, s, Apply(c, s, step)) && Forward(c, s, Apply(c, s, step))
  {
    StepKeepsInv(c, s, step);
    assert CarriesNext(c, s, Apply(c, s, step));
    ReachesStep(Carrying(c), s, Apply(c, s, step));
    match step
    case First(r) => FirstForward(c, s, r);
    case Second => SecondForward(c, s);
    case Deliver(r) => DeliverForward(c, s, r);
  }

  lemma ForwardSelf(c: Config, s: System)
    requires |s.hosts| == c.n
    ensures Forward(c, s, s)
  {
  }

  /** However the switch and the adapters work on what is queued, nothing on its way is lost. */
  lemma CarryForward(c: Config, s: System, s': System)
    requires Inv(c, s) && CanCarry(c, s, s')
    ensures Inv(c, s') && Forward(c, s, s')
  {
    ForwardSelf(c, s);
    var inv := (x: System) => Inv(c, x) && Forward(c, s, x);
    hide Inv, Forward, Reaches;
    forall a, b | inv(a) && Carrying(c)(a, b) ensures inv(b) {
      var step :| Moves(step) && Enabled(c, a, step) && b == Apply(c, a, step);
      MoveForward(c, a, step);
      ForwardTrans(c, s, a, b);
    }
    ReachesKeeps(Carrying(c), inv, s, s');
  }

  lemma MoveShrinks(c: Config, s: System, step: Step)
    requires Inv(c, s) && Enabled(c, s, step) && Moves(step)
    ensures var s' := Apply(c, s, step);
            var u, u' := UpTotal(s.hosts), UpTotal(s'.hosts);
            u' < u || (u' == u && |s'.loop| < |s.loop|) ||
            (u' == u && |s'.loop| == |s.loop| && DownTotal(s'.hosts) < DownTotal(s.hosts))
  {
    var s' := Apply(c, s, step);
    match step
    case First(r) => TotalsOfUpdate(s.hosts, r, s'.hosts[r]);
    case Second => SameUpTotal(s.hosts, s'.hosts);
    case Deliver(r) => TotalsOfUpdate(s.hosts, r, s'.hosts[r]);
  }

  /** Letting the switch and the adapters work through everything that is queued. */
  lemma {:induction false} Drain(c: Config, s: System) returns (s': System)
    requires Inv(c, s)
    ensures CanCarry(c, s, s') && Idle(s')
    decreases UpTotal(s.hosts), |s.loop|, DownTotal(s.hosts)
  {
    if Idle(s) {
      s' := s;
      ReachesSelf(Carrying(c), s);
    } else {
      var step: Step;
      if s.loop != [] {
        step := Second;
      } else {
        var r :| 0 <= r < |s.hosts| && (s.hosts[r].up != [] || s.hosts[r].down != []);
        step := if s.hosts[r].up != [] then First(r) else Deliver(r);
      }
      MoveForward(c, s, step);
      MoveShrinks(c, s, step);
      var m := Apply(c, s, step);
      s' := Drain(c, m);
      ReachesTrans(Carrying(c), s, m, s');
    }
  }

  // ---- Losing everything -----------------------------------------------------------------------

  /** The same hosts with nothing on their links. */
  ghost predicate Stripped(s: System, s': System)
  {
    && |s'.hosts| == |s.hosts| && s'.slots == s.slots && s'.order == s.order && s'.released == s.released
    && forall r :: 0 <= r < |s.hosts| ==>
         s'.hosts[r] == s.hosts[r].(up := s'.hosts[r].up, down := s'.hosts[r].down)
  }

  lemma LossShrinks(c: Config, s: System, step: Step)
    requires |s.slots| == c.Slots() && Enabled(c, s, step) && IsLoss(step)
    ensures var s' := Apply(c, s, step);
            && Stripped(s, s')
            && UpTotal(s'.hosts) + |s'.loop| + DownTotal(s'.hosts) < UpTotal(s.hosts) + |s.loop| + DownTotal(s.hosts)
  {
    var s' := Apply(c, s, step);
    if !step.LoseLoop? { TotalsOfUpdate(s.hosts, step.r, s'.hosts[step.r]); }
  }

  /** Whatever is on its way, all of it may be lost, at any time. */
  lemma {:induction false} LoseEverything(c: Config, s: System) returns (s': System)
    requires |s.slots| == c.Slots()
    ensures Reaches(Steps(c), s, s') && Idle(s') && Stripped(s, s')
    decreases UpTotal(s.hosts) + |s.loop| + DownTotal(s.hosts)
  {
    if Idle(s) {
      s' := s;
      ReachesSelf(Steps(c), s);
    } else {
      var step: Step;
      if s.loop != [] {
        step := LoseLoop(0);
      } else {
        var r :| 0 <= r < |s.hosts| && (s.hosts[r].up != [] || s.hosts[r].down != []);
        step := if s.hosts[r].up != [] then LoseUp(r, 0) else LoseDown(r, 0);
      }
      LossShrinks(c, s, step);
      var m := Apply(c, s, step);
      RunStep(c, s, step);
      s' := LoseEverything(c, m);
      ReachesTrans(Steps(c), s, m, s');
    }
  }

  // ---- One more position -----------------------------------------------------------------------

  /** Everybody has d results and has posted position d. */
  ghost predicate Able(c: Config, s: System, d: nat)
  {
    |s.hosts| == c.n && forall r :: 0 <= r < c.n ==> d <= |s.hosts[r].results| && d < s.hosts[r].posted
  }

  /** A host that lacks the result of position d may send it. */
  ghost predicate Sendable(c: Config, s: System, d: nat)
  {
    && |s.hosts| == c.n && |s.slots| == c.Slots()
    && forall r :: 0 <= r < c.n && |s.hosts[r].results| == d ==> s.hosts[r].acked <= d < s.hosts[r].posted
  }

  lemma AbleIsSendable(c: Config, s: System, d: nat)
    requires Inv(c, s) && Able(c, s, d)
    ensures Sendable(c, s, d)
  {
    forall r | 0 <= r < c.n ensures s.hosts[r].acked <= |s.hosts[r].results| { AckedIsWritten(c, s, r); }
  }

  /** Each of the first k hosts that lack the result of position d has sent its packet once. */
  ghost function SendOnce(c: Config, s: System, d: nat, k: nat): (t: System)
    requires Sendable(c, s, d) && k <= c.n
    ensures t == s.(hosts := t.hosts) && |t.hosts| == c.n
    ensures forall r :: 0 <= r < c.n ==>
      t.hosts[r] == if r < k && |s.hosts[r].results| == d
                    then s.hosts[r].(up := s.hosts[r].up + [Packet(d, c.input(r, d))]) else s.hosts[r]
  {
    if k == 0 then s
    else
      var t := SendOnce(c, s, d, k - 1);
      if |s.hosts[k - 1].results| == d then Apply(c, t, Transmit(k - 1, d)) else t
  }

  lemma {:induction false} SendOnceMoves(c: Config, s: System, d: nat, k: nat)
    requires Inv(c, s) && Sendable(c, s, d) && k <= c.n
    ensures Inv(c, SendOnce(c, s, d, k)) && CanMove(c, s, SendOnce(c, s, d, k))
  {
    hide Inv, CanMove;
    if k == 0 {
      CanMoveSelf(c, s);
    } else {
      var t := SendOnce(c, s, d, k - 1);
      SendOnceMoves(c, s, d, k - 1);
      CanMoveSelf(c, t);
      if |s.hosts[k - 1].results| == d { MoveStep(c, t, Transmit(k - 1, d)); }
      hide Apply, Enabled;
      CanMoveTrans(c, s, t, SendOnce(c, s, d, k));
    }
  }

  /** A host that has sent position d, or has its result, contributes and is served. */
  lemma SentIsServed(c: Config, s: System, d: nat, r: nat)
    requires Inv(c, s) && Able(c, s, d) && Sendable(c, s, d) && r < c.n
    ensures var m := SendOnce(c, s, d, c.n); Contributing(m, r, d) && Assured(c, m, r, d)
  {
    hide HostOk, HistoryOk, LoopOk, SlotsOk;
    var m := SendOnce(c, s, d, c.n);
    if |s.hosts[r].results| == d {
      QueuedAppend(s.hosts[r].up, Packet(d, c.input(r, d)), d);
    } else {
      WrittenIsFull(c, s, r, d);
    }
  }

  /** One transmission is enough: when every host that lacks a position's result has sent its packet once, then
      however the switch and the adapters work off what is queued, nobody has to send again. */
  lemma {:induction false} OneTransmissionEach(c: Config, s: System, d: nat, s': System)
    requires Inv(c, s) && Able(c, s, d) && Sendable(c, s, d) && !c.empty(d)
    requires CanCarry(c, SendOnce(c, s, d, c.n), s') && Idle(s')
    ensures |s'.hosts| == c.n && forall r :: 0 <= r < c.n ==> d < |s'.hosts[r].results|
  {
    var m := SendOnce(c, s, d, c.n);
    SendOnceMoves(c, s, d, c.n);
    CarryForward(c, m, s');
    assert |s'.hosts| == c.n;
    hide Inv, Forward, Contributing, Assured, Idle, Destined;
    forall r: nat | r < c.n ensures r in Order(s'.order, d) && Assured(c, s', r, d) {
      SentIsServed(c, s, d, r);
      ServedAtEnd(c, m, s', d, r);
    }
    forall r | 0 <= r < c.n ensures d < |s'.hosts[r].results| { AssuredAtEnd(c, s', d, r); }
  }

  lemma ServedAtEnd(c: Config, m: System, s': System, d: nat, r: nat)
    requires Forward(c, m, s') && Idle(s') && r < c.n && !c.empty(d) && d <= |m.hosts[r].results|
    requires Contributing(m, r, d) && Assured(c, m, r, d)
    ensures r in Order(s'.order, d) && Assured(c, s', r, d)
  {
    hide Assured;
    assert Contributing(s', r, d);
  }

  lemma AssuredAtEnd(c: Config, s: System, d: nat, r: nat)
    requires Idle(s) && r < |s.hosts| && Assured(c, s, r, d) && Full(c, s.order, d)
    ensures d < |s.hosts[r].results|
  {
  }

  /** Counters stay, results only grow. */
  ghost predicate Exchanged(c: Config, s: System, s': System)
  {
    |s.hosts| == |s'.hosts| == c.n &&
    forall r :: 0 <= r < c.n ==>
      && |s.hosts[r].results| <= |s'.hosts[r].results|
      && s'.hosts[r].posted == s.hosts[r].posted && s'.hosts[r].acked == s.hosts[r].acked
  }

  /** One exchange brings a position's result to everybody. */
  lemma Exchange(c: Config, s: System, d: nat) returns (s': System)
    requires Inv(c, s) && !c.empty(d) && Able(c, s, d)
    ensures Inv(c, s') && CanMove(c, s, s') && Exchanged(c, s, s')
    ensures forall r :: 0 <= r < c.n ==> d < |s'.hosts[r].results|
  {
    AbleIsSendable(c, s, d);
    var m := SendOnce(c, s, d, c.n);
    SendOnceMoves(c, s, d, c.n);
    s' := Drain(c, m);
    CarryForward(c, m, s');
    CarryIsMove(c, m, s');
    CanMoveTrans(c, s, m, s');
    OneTransmissionEach(c, s, d, s');
  }

  /** What everybody has posted up to e, everybody gets the results of. */
  lemma {:induction false} ExchangeUpTo(c: Config, s: System, d: nat, e: nat) returns (s': System)
    requires Inv(c, s) && d <= e && forall p: nat :: d <= p < e ==> !c.empty(p)
    requires forall r :: 0 <= r < c.n ==> d <= |s.hosts[r].results| && e <= s.hosts[r].posted
    ensures Inv(c, s') && CanMove(c, s, s') && Exchanged(c, s, s')
    ensures forall r :: 0 <= r < c.n ==> e <= |s'.hosts[r].results|
    decreases e - d
  {
    if d == e {
      s' := s;
      CanMoveSelf(c, s);
    } else {
      var m := Exchange(c, s, d);
      s' := ExchangeUpTo(c, m, d + 1, e);
      CanMoveTrans(c, s, m, s');
    }
  }

  lemma HostsAreN(c: Config, s: System)
    requires Inv(c, s)
    ensures |s.hosts| == c.n
  {
  }

  lemma AckedIsWritten(c: Config, s: System, r: nat)
    requires Inv(c, s) && r < c.n
    ensures r < |s.hosts| && s.hosts[r].acked <= |s.hosts[r].results|
  {
    assert HostOk(c, s.order, s.released, r, s.hosts[r]);
  }

  /** A host may learn of any part of its results. */
  lemma AckHost(c: Config, s: System, r: nat, upto: nat) returns (s': System)
    requires Inv(c, s) && r < c.n && s.hosts[r].acked <= upto <= |s.hosts[r].results|
    ensures Inv(c, s') && CanMove(c, s, s')
    ensures s' == SetHost(s, r, s.hosts[r].(acked := upto))
  {
    hide HistoryOk, HostOk, LoopOk, SlotsOk;
    MoveStep(c, s, Ack(r, upto));
    s' := Apply(c, s, Ack(r, upto));
  }

  /** The first k hosts, but for one, have learnt of all their results. */
  ghost predicate AckedBut(c: Config, s: System, s': System, mute: nat, k: nat)
  {
    |s.hosts| == |s'.hosts| == c.n && s'.order == s.order &&
    forall r :: 0 <= r < c.n ==>
      s'.hosts[r] == if r < k && r != mute then s.hosts[r].(acked := |s.hosts[r].results|) else s.hosts[r]
  }

  lemma {:induction false} AckAll(c: Config, s: System, mute: nat, k: nat) returns (s': System)
    requires Inv(c, s) && k <= c.n
    ensures Inv(c, s') && CanMove(c, s, s') && AckedBut(c, s, s', mute, k)
  {
    hide Inv, CanMove;
    if k == 0 {
      s' := s;
      CanMoveSelf(c, s);
      HostsAreN(c, s);
    } else {
      var m := AckAll(c, s, mute, k - 1);
      s' := m;
      AckedIsWritten(c, m, k - 1);
      if k - 1 != mute {
        s' := AckHost(c, m, k - 1, |m.hosts[k - 1].results|);
        CanMoveTrans(c, s, m, s');
      }
    }
  }

  /** A zero-length write is never acknowledged: no host gets past it, in any run. */
  lemma EmptyBlocks(c: Config, s: System, z: nat, r: nat)
    requires Inv(c, s) && c.empty(z) && r < c.n
    ensures s.hosts[r].acked <= |s.hosts[r].results| <= z
  {
    assert HostOk(c, s.order, s.released, r, s.hosts[r]);
    assert 0 !in Order(s.order, z);
    if z < |s.hosts[r].results| {
      WrittenIsFull(c, s, r, z);
      assert false;
    }
  }

  // ---- Hosts that post freely ------------------------------------------------------------------

  lemma MovesAreRuns(c: Config, s: System, s': System)
    requires CanMove(c, s, s')
    ensures Reaches(Steps(c), s, s')
  {
    forall a, b | Moving(c)(a, b) ensures Steps(c)(a, b) {
      var step :| Conveys(step) && Enabled(c, a, step) && b == Apply(c, a, step);
      assert Next(c, a, b);
    }
    ReachesWeakens(Moving(c), Steps(c), s, s');
  }

  lemma RunStep(c: Config, s: System, step: Step)
    requires |s.slots| == c.Slots() && Enabled(c, s, step)
    ensures Reaches(Steps(c), s, Apply(c, s, step))
  {
    assert Next(c, s, Apply(c, s, step));
    ReachesStep(Steps(c), s, Apply(c, s, step));
  }

  /** Host r has posted position d. */
  lemma OpenHost(c: Config, s: System, d: nat, r: nat) returns (s': System)
    requires Inv(c, s) && r < c.n && |s.hosts| == c.n
    requires d <= |s.hosts[r].results| && d < s.hosts[r].acked + c.window
    ensures Inv(c, s') && Reaches(Steps(c), s, s') && s'.order == s.order
    ensures s'.hosts == s.hosts[r := s.hosts[r].(posted := Max(s.hosts[r].posted, d + 1))]
  {
    assert HostOk(c, s.order, s.released, r, s.hosts[r]);
    hide HistoryOk, LoopOk, SlotsOk, Reaches;
    if s.hosts[r].posted == d {
      s' := Apply(c, s, Post(r, 1));
      StepKeepsInv(c, s, Post(r, 1));
      RunStep(c, s, Post(r, 1));
    } else {
      s' := s;
      ReachesSelf(Steps(c), s);
    }
  }

  /** The first k hosts have posted position d. */
  lemma {:induction false} OpenAll(c: Config, s: System, d: nat, k: nat) returns (s': System)
    requires Inv(c, s) && k <= c.n
    requires forall r :: 0 <= r < c.n ==> d <= |s.hosts[r].results| && d < s.hosts[r].acked + c.window
    ensures Inv(c, s') && Reaches(Steps(c), s, s') && |s'.hosts| == c.n && s'.order == s.order
    ensures forall r :: 0 <= r < c.n ==>
      s'.hosts[r] == if r < k then s.hosts[r].(posted := Max(s.hosts[r].posted, d + 1)) else s.hosts[r]
  {
    if k == 0 {
      s' := s;
      ReachesSelf(Steps(c), s);
    } else {
      var m := OpenAll(c, s, d, k - 1);
      hide Inv, Reaches;
      s' := OpenHost(c, m, d, k - 1);
      ReachesTrans(Steps(c), s, m, s');
    }
  }

  function Max(a: nat, b: nat): nat
  {
    if a < b then b else a
  }

  /** From a state in which everybody has d results, one in which everybody has `total`, even if one
      host acknowledges nothing, as long as `total` fits its window. */
  lemma {:induction false} Advance(c: Config, s: System, d: nat, total: nat, mute: nat) returns (s': System)
    requires Inv(c, s) && d <= total && (forall p: nat :: p < total ==> !c.empty(p))
    requires forall r :: 0 <= r < c.n ==> d <= |s.hosts[r].results|
    requires mute < c.n ==> s.hosts[mute].acked <= d && total <= s.hosts[mute].acked + c.window
    ensures Inv(c, s') && Reaches(Steps(c), s, s')
    ensures forall r :: 0 <= r < c.n ==>
      total <= |s'.hosts[r].results| && s'.hosts[r].posted == Max(s.hosts[r].posted, total)
    ensures mute < c.n ==> s'.hosts[mute].acked == s.hosts[mute].acked
    decreases total - d
  {
    if d == total {
      s' := s;
      ReachesSelf(Steps(c), s);
      forall r | 0 <= r < c.n ensures s.hosts[r].posted == Max(s.hosts[r].posted, total) {
        assert HostOk(c, s.order, s.released, r, s.hosts[r]);
      }
    } else {
      hide HistoryOk, LoopOk, SlotsOk, HostOk;
      var a := AckAll(c, s, mute, c.n);
      var b := OpenAll(c, a, d, c.n);
      var e := ExchangeUpTo(c, b, d, d + 1);
      MovesAreRuns(c, s, a);
      MovesAreRuns(c, b, e);
      hide Inv, Reaches, CanMove;
      s' := Advance(c, e, d + 1, total, mute);
      ReachesTrans(Steps(c), s, a, b);
      ReachesTrans(Steps(c), s, b, e);
      ReachesTrans(Steps(c), s, e, s');
    }
  }
}
