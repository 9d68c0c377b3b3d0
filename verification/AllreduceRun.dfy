/** The hosts' allreduce loops and the two groups of queue pairs they drive, as one step system over a whole
    sequence of calls. Hosts may be in different calls; each is at its own place in its own loop. */
module AllreduceRun {
  import opened Paths
  import opened SwitchPipeline
  import opened Protocol
  import opened ProtocolSafety
  import opened BlockPlan
  import opened RunPlan

  /** At the head of the loop, or about to poll the given queue pair. */
  datatype Phase = Head | Polling(next: nat)

  /** One host's loop: the call it is in, the blocks of it posted, and the requests of it whose completion
      has been polled on each queue pair. */
  datatype Loop = Loop(call: nat, posted: nat, completed: seq<nat>, phase: Phase)

  /** `broken` are the queue pairs, by host, that ran out of retries and are in the error state. */
  datatype Run = Run(loops: seq<Loop>, channels: seq<System>, broken: set<(nat, nat)>)

  datatype Event =
    | Pass(r: nat)                  // from the loop head: leave the call, or post what the depth allows
    | Poll(r: nat, take: bool)      // poll one queue pair; a completion may be there
    | Net(i: nat, step: Step)       // a step of an adapter, a link or the switch
    | GiveUp(r: nat, i: nat)        // an adapter's retries are exhausted

  // ---- One loop --------------------------------------------------------------------------------

  predicate InStep(j: Job, l: Loop)
    requires Usable(j.settings)
  {
    && l.call <= |j.sizes| && |l.completed| == QPS
    && (l.call == |j.sizes| ==> l.phase == Head)
    && (l.call < |j.sizes| ==>
          && l.posted <= Blocks(j, l.call)
          && (forall i :: 0 <= i < Qps(j, l.call) ==>
                l.completed[i] <= l.posted <= l.completed[i] + MaxOutstanding(j.settings))
          && (l.phase.Polling? ==> l.phase.next < Qps(j, l.call)))
  }

  /** The loop is inside a call. */
  predicate Busy(j: Job, l: Loop)
  {
    Usable(j.settings) && InStep(j, l) && l.call < |j.sizes|
  }

  function Depth(l: Loop, i: nat): nat
    requires i < |l.completed| && l.completed[i] <= l.posted
  {
    l.posted - l.completed[i]
  }

  /** The larger depth over the queue pairs the call uses. */
  function Deepest(j: Job, l: Loop): nat
    requires Busy(j, l)
  {
    var d := Depth(l, 0);
    if Qps(j, l.call) == 2 && Depth(l, 1) > d then Depth(l, 1) else d
  }

  predicate LastPass(j: Job, l: Loop)
    requires Busy(j, l)
  {
    l.posted == Blocks(j, l.call) && Deepest(j, l) == 0
  }

  function Pushed(j: Job, l: Loop): nat
    requires Busy(j, l)
  {
    l.posted + Min(MaxOutstanding(j.settings) - Deepest(j, l), Blocks(j, l.call) - l.posted)
  }

  /** A loop that begins call k. */
  function Fresh(k: nat): Loop
  {
    Loop(k, 0, seq(QPS, _ => 0), Head)
  }

  function AfterPass(j: Job, l: Loop): Loop
    requires Busy(j, l)
  {
    if LastPass(j, l) then Fresh(l.call + 1)
    else l.(posted := Pushed(j, l), phase := Polling(0))
  }

  function AfterPoll(j: Job, l: Loop, take: bool): Loop
    requires Busy(j, l) && l.phase.Polling?
  {
    var i := l.phase.next;
    l.(completed := if take then l.completed[i := l.completed[i] + 1] else l.completed,
       phase := if i + 1 < Qps(j, l.call) then Polling(i + 1) else Head)
  }

  lemma PassKeepsLoop(j: Job, l: Loop)
    requires Busy(j, l) && l.phase == Head
    ensures InStep(j, AfterPass(j, l))
    ensures !LastPass(j, l) ==> l.posted <= Pushed(j, l) <= Blocks(j, l.call)
  {
  }

  lemma PollKeepsLoop(j: Job, l: Loop, take: bool)
    requires Busy(j, l) && l.phase.Polling? && (take ==> l.completed[l.phase.next] < l.posted)
    ensures InStep(j, AfterPoll(j, l, take))
  {
  }

  // ---- The system ------------------------------------------------------------------------------

  /** Where host r's packets up to the b-th block of its call end on queue pair i. */
  function Mark(j: Job, l: Loop, i: nat, b: nat): nat
    requires j.settings.blockSize > 0 && l.call <= |j.sizes| && (l.call < |j.sizes| ==> b <= Blocks(j, l.call))
  {
    Base(j, l.call, i) + (if l.call < |j.sizes| then Packed(j, l.call, i, b) else 0)
  }

  /** A completion is waiting: its request has been acknowledged, or the queue pair is broken and flushes
      its requests. The loop does not look at which. */
  predicate Due(j: Job, g: Run, r: nat, i: nat)
    requires r < |g.loops| && Busy(j, g.loops[r]) && i < Qps(j, g.loops[r].call)
    requires |g.channels| == QPS && r < |g.channels[i].hosts|
  {
    var l := g.loops[r];
    && l.completed[i] < l.posted
    && ((r, i) in g.broken || Mark(j, l, i, l.completed[i] + 1) <= g.channels[i].hosts[r].acked)
  }

  /** A broken queue pair neither sends nor receives. */
  predicate Silent(g: Run, i: nat, step: Step)
  {
    (step.Transmit? || step.Deliver? || step.Ack?) && (step.r, i) in g.broken
  }

  predicate Shaped(j: Job, g: Run)
  {
    && j.settings.blockSize > 0 && |g.loops| == j.n && |g.channels| == QPS
    && forall i :: 0 <= i < QPS ==> |g.channels[i].hosts| == j.n && |g.channels[i].slots| == Channel(j, i).Slots()
  }

  predicate Allowed(j: Job, g: Run, e: Event)
    requires Shaped(j, g)
  {
    match e
    case Pass(r) => r < j.n && Busy(j, g.loops[r]) && g.loops[r].phase == Head
    case Poll(r, take) =>
      r < j.n && Busy(j, g.loops[r]) && g.loops[r].phase.Polling? && (take ==> Due(j, g, r, g.loops[r].phase.next))
    case Net(i, step) =>
      i < QPS && !step.Post? && !Silent(g, i, step) && Enabled(Channel(j, i), g.channels[i], step)
    case GiveUp(r, i) =>
      r < j.n && i < QPS && (r, i) !in g.broken && g.channels[i].hosts[r].acked < g.channels[i].hosts[r].posted
  }

  function Posted(s: System, r: nat, count: nat): System
    requires r < |s.hosts|
  {
    SetHost(s, r, s.hosts[r].(posted := s.hosts[r].posted + count))
  }

  /** Packets a pass hands to queue pair i; a request for a broken one is flushed and never sent. */
  function Handed(j: Job, g: Run, r: nat, i: nat): nat
    requires r < |g.loops| && Busy(j, g.loops[r]) && g.loops[r].phase == Head
  {
    var l := g.loops[r];
    if LastPass(j, l) || (r, i) in g.broken then 0
    else
      PassKeepsLoop(j, l);
      PackedGrows(j, l.call, i, l.posted, Pushed(j, l));
      Packed(j, l.call, i, Pushed(j, l)) - Packed(j, l.call, i, l.posted)
  }

  function After(j: Job, g: Run, e: Event): Run
    requires Shaped(j, g) && Allowed(j, g, e)
  {
    match e
    case Pass(r) =>
      g.(loops := g.loops[r := AfterPass(j, g.loops[r])],
         channels := [Posted(g.channels[0], r, Handed(j, g, r, 0)), Posted(g.channels[1], r, Handed(j, g, r, 1))])
    case Poll(r, take) => g.(loops := g.loops[r := AfterPoll(j, g.loops[r], take)])
    case Net(i, step) => g.(channels := g.channels[i := Apply(Channel(j, i), g.channels[i], step)])
    case GiveUp(r, i) => g.(broken := g.broken + {(r, i)})
  }

  function Start(j: Job): Run
    requires j.settings.blockSize > 0
  {
    Run(seq(j.n, _ => Fresh(0)), [Initial(Channel(j, 0)), Initial(Channel(j, 1))], {})
  }

  ghost predicate NextRun(j: Job, g: Run, g': Run)
  {
    Shaped(j, g) && exists e :: Allowed(j, g, e) && g' == After(j, g, e)
  }

  ghost function Events(j: Job): (Run, Run) -> bool
  {
    (g, g') => NextRun(j, g, g')
  }

  /** Reachable from the creation of the groups by any interleaving of loops, adapters and switch. */
  ghost predicate Occurs(j: Job, g: Run)
  {
    JobOk(j) && Reaches(Events(j), Start(j), g)
  }

  // ---- Invariant -------------------------------------------------------------------------------

  /** What a healthy queue pair has been given is what the loop has posted, and what the loop has polled
      has been acknowledged. */
  ghost predicate Linked(j: Job, l: Loop, h: Host, i: nat)
    requires Usable(j.settings) && InStep(j, l) && i < QPS
    requires l.call < |j.sizes| && i < Qps(j, l.call) ==> l.completed[i] <= l.posted
  {
    && h.posted == Mark(j, l, i, l.posted)
    && h.acked >=
       if l.call < |j.sizes| && i < Qps(j, l.call) then Mark(j, l, i, l.completed[i]) else Base(j, l.call, i)
  }

  ghost predicate RunInv(j: Job, g: Run)
  {
    && JobOk(j) && Shaped(j, g)
    && (forall i :: 0 <= i < QPS ==> Reachable(Channel(j, i), g.channels[i]))
    && (forall r :: 0 <= r < j.n ==> InStep(j, g.loops[r]))
    && (forall r, i :: 0 <= r < j.n && 0 <= i < QPS && (r, i) !in g.broken ==>
          Linked(j, g.loops[r], g.channels[i].hosts[r], i))
  }

  lemma ChannelInv(j: Job, g: Run, i: nat)
    requires RunInv(j, g) && i < QPS
    ensures Valid(Channel(j, i)) && Inv(Channel(j, i), g.channels[i])
  {
    ChannelIsValid(j, i);
    ReachableInv(Channel(j, i), g.channels[i]);
  }

  lemma StartInv(j: Job)
    requires JobOk(j)
    ensures RunInv(j, Start(j))
  {
    var g := Start(j);
    forall i | 0 <= i < QPS ensures Reachable(Channel(j, i), Initial(Channel(j, i))) {
      ReachesSelf(Steps(Channel(j, i)), Initial(Channel(j, i)));
    }
    hide Linked, InStep, Reachable;
    forall r, i | 0 <= r < j.n && 0 <= i < QPS
      ensures InStep(j, g.loops[r]) && Linked(j, g.loops[r], g.channels[i].hosts[r], i)
    {
      LinkAtStart(j, 0, g.channels[i].hosts[r], i);
    }
    forall r | 0 <= r < j.n ensures InStep(j, g.loops[r]) { LinkAtStart(j, 0, g.channels[0].hosts[r], 0); }
  }

  lemma OneMoreStep(c: Config, s: System, step: Step)
    requires Reachable(c, s) && |s.slots| == c.Slots() && Enabled(c, s, step)
    ensures Reachable(c, Apply(c, s, step))
  {
    assert Next(c, s, Apply(c, s, step));
    ReachesStep(Steps(c), s, Apply(c, s, step));
    ReachesTrans(Steps(c), Initial(c), s, Apply(c, s, step));
  }

  /** Every post of the loop is one the protocol's window allows. */
  lemma {:induction false} PostIsEnabled(j: Job, g: Run, r: nat, i: nat)
    requires RunInv(j, g) && Allowed(j, g, Pass(r)) && i < QPS
    ensures Enabled(Channel(j, i), g.channels[i], Post(r, Handed(j, g, r, i)))
  {
    var l, h := g.loops[r], g.channels[i].hosts[r];
    ChannelInv(j, g, i);
    assert HostOk(Channel(j, i), g.channels[i].order, g.channels[i].released, r, h);
    if (r, i) !in g.broken && !LastPass(j, l) {
      PassKeepsLoop(j, l);
      assert Linked(j, l, h, i);
      if i < Qps(j, l.call) { PackedFitsWindow(j, l.call, i, l.completed[i], Pushed(j, l)); }
    }
  }

  lemma LinkAfterPush(j: Job, l: Loop, h: Host, i: nat)
    requires Busy(j, l) && l.phase == Head && i < QPS && Linked(j, l, h, i) && !LastPass(j, l)
    ensures InStep(j, AfterPass(j, l)) && l.posted <= Pushed(j, l) <= Blocks(j, l.call)
    ensures Packed(j, l.call, i, l.posted) <= Packed(j, l.call, i, Pushed(j, l))
    ensures var count := Packed(j, l.call, i, Pushed(j, l)) - Packed(j, l.call, i, l.posted);
            Linked(j, AfterPass(j, l), h.(posted := h.posted + count), i)
  {
    PassKeepsLoop(j, l);
    PackedGrows(j, l.call, i, l.posted, Pushed(j, l));
    hide Packed, Base, Pushed, Blocks, LastPass;
  }

  /** Counters and results of host r of a group. */
  function Progress(s: System, r: nat): (nat, nat, seq<Payload>)
    requires r < |s.hosts|
  {
    (s.hosts[r].posted, s.hosts[r].acked, s.hosts[r].results)
  }

  lemma SilentLeavesHost(c: Config, s: System, step: Step, r: nat)
    requires |s.slots| == c.Slots() && Enabled(c, s, step) && r < |s.hosts| && !step.Post?
    requires (step.Transmit? || step.Deliver? || step.Ack?) ==> step.r != r
    ensures r < |Apply(c, s, step).hosts| && Progress(Apply(c, s, step), r) == Progress(s, r)
  {
  }

  /** A broken queue pair stays broken, and nothing moves its host's counters or results any more. */
  lemma BrokenIsFrozen(j: Job, g: Run, e: Event, r: nat, i: nat)
    requires Shaped(j, g) && Allowed(j, g, e) && r < j.n && i < QPS && (r, i) in g.broken
    ensures (r, i) in After(j, g, e).broken && |After(j, g, e).channels| == QPS
    ensures r < |After(j, g, e).channels[i].hosts|
    ensures Progress(After(j, g, e).channels[i], r) == Progress(g.channels[i], r)
  {
    match e
    case Net(x, step) => if x == i { SilentLeavesHost(Channel(j, i), g.channels[i], step, r); }
    case _ => hide AfterPass, AfterPoll, Channel;
  }

  /** A queue pair breaks only while a request on it waits for its acknowledgement. */
  lemma BreaksWhileWaiting(j: Job, g: Run, e: Event, r: nat, i: nat)
    requires Shaped(j, g) && Allowed(j, g, e) && (r, i) !in g.broken && (r, i) in After(j, g, e).broken
    ensures r < j.n && i < QPS && g.channels[i].hosts[r].acked < g.channels[i].hosts[r].posted
    ensures After(j, g, e).channels == g.channels && After(j, g, e).loops == g.loops
  {
    hide AfterPass, AfterPoll, Channel, Handed;
  }

  lemma JobIsUsable(j: Job, g: Run)
    requires RunInv(j, g)
    ensures Usable(j.settings) && |g.loops| == j.n
  {
  }

  lemma LinkAfterCall(j: Job, l: Loop, h: Host, i: nat)
    requires Busy(j, l) && l.phase == Head && i < QPS && Linked(j, l, h, i) && LastPass(j, l)
    ensures InStep(j, AfterPass(j, l)) && Linked(j, AfterPass(j, l), h, i)
  {
    hide Deepest, Blocks, Packed, Base, Qps, MaxOutstanding;
    LastIsDrained(j, l, i);
    NextBase(j, l.call, i);
    LinkAtStart(j, l.call + 1, h, i);
  }

  lemma LastIsDrained(j: Job, l: Loop, i: nat)
    requires Busy(j, l) && LastPass(j, l)
    ensures l.posted == Blocks(j, l.call) && (i < Qps(j, l.call) ==> l.completed[i] == Blocks(j, l.call))
  {
    hide Blocks;
  }

  /** A call's packets end where the next call's begin. */
  lemma NextBase(j: Job, k: nat, i: nat)
    requires j.settings.blockSize > 0 && k < |j.sizes|
    ensures Base(j, k + 1, i) == Base(j, k, i) + Packed(j, k, i, Blocks(j, k))
    ensures i >= Qps(j, k) ==> Base(j, k + 1, i) == Base(j, k, i)
  {
    PackedAll(j, k, i);
  }

  lemma LinkAtStart(j: Job, k: nat, h: Host, i: nat)
    requires Usable(j.settings) && k <= |j.sizes| && i < QPS && h.posted == Base(j, k, i) <= h.acked
    ensures InStep(j, Fresh(k)) && Linked(j, Fresh(k), h, i)
  {
    hide Base, Packed, Blocks, Qps;
    if k < |j.sizes| { PackedAll(j, k, i); }
  }

  lemma LinkAfterPoll(j: Job, l: Loop, h: Host, i: nat, take: bool)
    requires Busy(j, l) && l.phase.Polling? && i < QPS && Linked(j, l, h, i)
    requires take ==> l.completed[l.phase.next] < l.posted
    requires take && i == l.phase.next ==> Mark(j, l, i, l.completed[i] + 1) <= h.acked
    ensures InStep(j, AfterPoll(j, l, take)) && Linked(j, AfterPoll(j, l, take), h, i)
  {
    PollKeepsLoop(j, l, take);
    hide Packed, Base, Blocks;
  }

  lemma PassKeepsLink(j: Job, g: Run, r: nat, i: nat)
    requires RunInv(j, g) && Allowed(j, g, Pass(r)) && i < QPS && (r, i) !in g.broken
    ensures InStep(j, AfterPass(j, g.loops[r]))
    ensures Linked(j, AfterPass(j, g.loops[r]), Posted(g.channels[i], r, Handed(j, g, r, i)).hosts[r], i)
  {
    var l, h := g.loops[r], g.channels[i].hosts[r];
    assert Linked(j, l, h, i);
    hide Linked, RunInv, Reachable, AfterPass, LastPass, Pushed;
    if LastPass(j, l) { LinkAfterCall(j, l, h, i); } else { LinkAfterPush(j, l, h, i); }
  }

  /** What a pass of host r does to the group of queue pair i. */
  lemma PassOnChannel(j: Job, g: Run, r: nat, i: nat)
    requires Shaped(j, g) && Allowed(j, g, Pass(r)) && i < QPS
    ensures After(j, g, Pass(r)).channels[i] == Posted(g.channels[i], r, Handed(j, g, r, i))
  {
    hide Handed, AfterPass, Channel;
  }

  lemma PostReaches(c: Config, s: System, r: nat, count: nat)
    requires Reachable(c, s) && |s.slots| == c.Slots() && r < |s.hosts| && Enabled(c, s, Post(r, count))
    ensures Reachable(c, Posted(s, r, count))
  {
    OneMoreStep(c, s, Post(r, count));
  }

  lemma PassKeepsReachable(j: Job, g: Run, r: nat, i: nat)
    requires RunInv(j, g) && Allowed(j, g, Pass(r)) && i < QPS
    ensures var s' := After(j, g, Pass(r)).channels[i];
            && Reachable(Channel(j, i), s') && |s'.hosts| == j.n && |s'.slots| == Channel(j, i).Slots()
            && forall x :: 0 <= x < j.n && x != r ==> s'.hosts[x] == g.channels[i].hosts[x]
  {
    PassOnChannel(j, g, r, i);
    PostIsEnabled(j, g, r, i);
    hide Handed, After, AfterPass, Reachable, Enabled, Linked, InStep, Channel;
    PostReaches(Channel(j, i), g.channels[i], r, Handed(j, g, r, i));
  }

  lemma PassKeepsLinks(j: Job, g: Run, r: nat, x: nat, i: nat)
    requires RunInv(j, g) && Allowed(j, g, Pass(r)) && i < QPS && x < j.n && (x, i) !in g.broken
    ensures var g' := After(j, g, Pass(r));
            && |g'.loops| == |g'.channels[i].hosts| == j.n && InStep(j, g'.loops[x])
            && Linked(j, g'.loops[x], g'.channels[i].hosts[x], i)
  {
    PassKeepsReachable(j, g, r, i);
    if x == r {
      PassOnChannel(j, g, r, i);
      PassKeepsLink(j, g, r, i);
      hide Handed, AfterPass, Linked, Reachable;
    } else {
      assert Linked(j, g.loops[x], g.channels[i].hosts[x], i);
      hide Handed, AfterPass, Linked, Reachable;
    }
  }

  lemma {:induction false} PassKeeps(j: Job, g: Run, r: nat)
    requires RunInv(j, g) && Allowed(j, g, Pass(r))
    ensures RunInv(j, After(j, g, Pass(r)))
  {
    var g' := After(j, g, Pass(r));
    PassKeepsLoop(j, g.loops[r]);
    assert g'.loops == g.loops[r := AfterPass(j, g.loops[r])] && g'.broken == g.broken && |g'.channels| == QPS;
    hide Channel, AfterPass, Reachable, After, InStep, Linked;
    forall i | 0 <= i < QPS
      ensures && Reachable(Channel(j, i), g'.channels[i])
              && |g'.channels[i].hosts| == j.n && |g'.channels[i].slots| == Channel(j, i).Slots()
    {
      PassKeepsReachable(j, g, r, i);
    }
    forall x, i | 0 <= x < j.n && 0 <= i < QPS && (x, i) !in g'.broken
      ensures InStep(j, g'.loops[x]) && Linked(j, g'.loops[x], g'.channels[i].hosts[x], i)
    {
      PassKeepsLinks(j, g, r, x, i);
    }
  }

  lemma PollKeeps(j: Job, g: Run, r: nat, take: bool)
    requires RunInv(j, g) && Allowed(j, g, Poll(r, take))
    ensures RunInv(j, After(j, g, Poll(r, take)))
  {
    var g', l := After(j, g, Poll(r, take)), g.loops[r];
    PollKeepsLoop(j, l, take);
    hide Channel, Reachable, AfterPoll, Linked, Mark, Packed, Base, Blocks, Deepest;
    forall x, i | 0 <= x < j.n && 0 <= i < QPS && (x, i) !in g'.broken
      ensures InStep(j, g'.loops[x]) && Linked(j, g'.loops[x], g'.channels[i].hosts[x], i)
    {
      assert Linked(j, g.loops[x], g.channels[i].hosts[x], i);
      if x == r { LinkAfterPoll(j, l, g.channels[i].hosts[r], i, take); }
    }
  }

  /** Nothing but a post changes what is posted, and acknowledgements are not taken back. */
  lemma NetKeepsCounters(c: Config, s: System, step: Step, r: nat)
    requires |s.slots| == c.Slots() && Enabled(c, s, step) && !step.Post? && r < |s.hosts|
    ensures var s' := Apply(c, s, step);
            && |s'.hosts| == |s.hosts| && |s'.slots| == |s.slots|
            && s'.hosts[r].posted == s.hosts[r].posted && s.hosts[r].acked <= s'.hosts[r].acked
  {
  }

  lemma NetKeeps(j: Job, g: Run, i: nat, step: Step)
    requires RunInv(j, g) && Allowed(j, g, Net(i, step))
    ensures RunInv(j, After(j, g, Net(i, step)))
  {
    var g' := After(j, g, Net(i, step));
    hide Packed, Base, Blocks, Qps, Deepest;
    OneMoreStep(Channel(j, i), g.channels[i], step);
    forall x | 0 <= x < j.n
      ensures && |g'.channels[i].hosts| == j.n && |g'.channels[i].slots| == |g.channels[i].slots|
              && g'.channels[i].hosts[x].posted == g.channels[i].hosts[x].posted
              && g.channels[i].hosts[x].acked <= g'.channels[i].hosts[x].acked
    {
      NetKeepsCounters(Channel(j, i), g.channels[i], step, x);
    }
    hide Channel, Reachable, Apply, Mark, Linked;
    forall x, k | 0 <= x < j.n && 0 <= k < QPS && (x, k) !in g'.broken
      ensures Linked(j, g'.loops[x], g'.channels[k].hosts[x], k)
    {
      LinkStays(j, g.loops[x], g.channels[k].hosts[x], g'.channels[k].hosts[x], k);
    }
  }

  lemma LinkStays(j: Job, l: Loop, h: Host, h': Host, i: nat)
    requires Usable(j.settings) && InStep(j, l) && i < QPS && Linked(j, l, h, i)
    requires h'.posted == h.posted && h.acked <= h'.acked
    ensures Linked(j, l, h', i)
  {
    hide Mark, Base;
  }

  /** Every event keeps the link between loops and groups. */
  lemma {:induction false} EventKeeps(j: Job, g: Run, e: Event)
    requires RunInv(j, g) && Allowed(j, g, e)
    ensures RunInv(j, After(j, g, e))
  {
    match e
    case Pass(r) => PassKeeps(j, g, r);
    case Poll(r, take) => PollKeeps(j, g, r, take);
    case Net(i, step) => NetKeeps(j, g, i, step);
    case GiveUp(r, i) =>
  }

  lemma OccursInv(j: Job, g: Run)
    requires Occurs(j, g)
    ensures RunInv(j, g)
  {
    StartInv(j);
    var inv := (x: Run) => RunInv(j, x);
    hide RunInv, Reaches;
    forall a, b | inv(a) && Events(j)(a, b) ensures inv(b) {
      var e :| Allowed(j, a, e) && b == After(j, a, e);
      EventKeeps(j, a, e);
    }
    ReachesKeeps(Events(j), inv, Start(j), g);
  }
}
