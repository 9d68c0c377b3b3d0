/** What a host has when its allreduce call returns. */
module AllreduceCall {
  import opened SwitchPipeline
  import opened Reduction
  import opened Protocol
  import opened ProtocolSafety
  import opened ProtocolProgress
  import opened BlockPlan
  import opened PacketPlan
  import RdmaGroup
  import opened RunPlan
  import opened AllreduceRun

  // ---- The loop is the group's -----------------------------------------------------------------

  /** The transmit depths of the queue pairs in use. */
  function Depths(j: Job, l: Loop): seq<nat>
    requires Busy(j, l)
  {
    seq(Qps(j, l.call), i requires 0 <= i < Qps(j, l.call) => Depth(l, i))
  }

  /** A pass and its polls, when `arrived` says on which queue pairs a completion is there. */
  function WholePass(j: Job, l: Loop, arrived: seq<bool>): Loop
    requires Busy(j, l) && l.phase == Head && !LastPass(j, l) && |arrived| == Qps(j, l.call)
  {
    PassKeepsLoop(j, l);
    var m := AfterPass(j, l);
    var t := arrived[0] && m.completed[0] < m.posted;
    PollKeepsLoop(j, m, t);
    var a := AfterPoll(j, m, t);
    if Qps(j, l.call) == 1 then a else AfterPoll(j, a, arrived[1] && a.completed[1] < a.posted)
  }

  lemma WholePassKeepsLoop(j: Job, l: Loop, arrived: seq<bool>)
    requires Busy(j, l) && l.phase == Head && !LastPass(j, l) && |arrived| == Qps(j, l.call)
    ensures Busy(j, WholePass(j, l, arrived)) && WholePass(j, l, arrived).call == l.call
    ensures WholePass(j, l, arrived).phase == Head
  {
    PassKeepsLoop(j, l);
    var m := AfterPass(j, l);
    var t := arrived[0] && m.completed[0] < m.posted;
    PollKeepsLoop(j, m, t);
    var a := AfterPoll(j, m, t);
    hide Blocks, MaxOutstanding, Pushed, LastPass;
    if Qps(j, l.call) == 2 { PollKeepsLoop(j, a, arrived[1] && a.completed[1] < a.posted); }
  }

  lemma WholePassDepth(j: Job, l: Loop, arrived: seq<bool>, i: nat)
    requires Busy(j, l) && l.phase == Head && !LastPass(j, l) && |arrived| == Qps(j, l.call) && i < Qps(j, l.call)
    ensures var w := WholePass(j, l, arrived);
            && w.posted == Pushed(j, l) >= l.posted && |w.completed| == QPS && w.completed[i] <= w.posted
            && var d := Depth(l, i) + (Pushed(j, l) - l.posted);
               Depth(w, i) == d - (if arrived[i] && d > 0 then 1 else 0)
  {
    PassKeepsLoop(j, l);
    hide Blocks, MaxOutstanding, Pushed, LastPass, Deepest;
  }

  lemma LastPassIff(j: Job, l: Loop)
    requires Busy(j, l)
    ensures LastPass(j, l) <==>
            l.posted == Blocks(j, l.call) && forall i :: 0 <= i < |Depths(j, l)| ==> Depths(j, l)[i] == 0
  {
    var ds := Depths(j, l);
    assert ds[0] == Depth(l, 0) && (|ds| == 2 ==> ds[1] == Depth(l, 1));
    hide Blocks, MaxOutstanding;
  }

  lemma DeepestIsLargest(j: Job, l: Loop)
    requires Busy(j, l)
    ensures RdmaGroup.IsLargest(Depths(j, l), Deepest(j, l)) && Deepest(j, l) <= MaxOutstanding(j.settings)
  {
    var ds := Depths(j, l);
    assert ds[0] == Depth(l, 0) && (|ds| == 2 ==> ds[1] == Depth(l, 1));
    hide Blocks, MaxOutstanding;
    assert ds[if |ds| == 2 && Depth(l, 1) > Depth(l, 0) then 1 else 0] == Deepest(j, l);
  }

  /** The loop of the run does what the loop of the host library is proved to do, pass by pass: it leaves the
      call in the same states, and otherwise posts and polls the same. */
  lemma {:induction false} LoopIsGroupLoop(j: Job, l: Loop, arrived: seq<bool>)
    requires Busy(j, l) && l.phase == Head && |arrived| == Qps(j, l.call)
    ensures LastPass(j, l) <==>
            l.posted == Blocks(j, l.call) && forall i :: 0 <= i < |Depths(j, l)| ==> Depths(j, l)[i] == 0
    ensures !LastPass(j, l) ==>
              && Busy(j, WholePass(j, l, arrived))
              && RdmaGroup.IsPass(j.settings, j.sizes[l.call], l.posted, Depths(j, l), arrived,
                                  WholePass(j, l, arrived).posted, Depths(j, WholePass(j, l, arrived)))
  {
    LastPassIff(j, l);
    assert LastPass(j, l) <==> l.posted == Blocks(j, l.call) && Deepest(j, l) == 0;
    if !LastPass(j, l) {
      WholePassKeepsLoop(j, l, arrived);
      PassKeepsLoop(j, l);
      DeepestIsLargest(j, l);
      var w := WholePass(j, l, arrived);
      forall i | 0 <= i < Qps(j, l.call)
        ensures var d := Depths(j, l)[i] + (Pushed(j, l) - l.posted);
                Depths(j, w)[i] == d - (if arrived[i] && d > 0 then 1 else 0) && Depths(j, l)[i] <= Deepest(j, l)
      {
        WholePassDepth(j, l, arrived, i);
      }
      WholePassDepth(j, l, arrived, 0);
      hide WholePass, Deepest, RdmaGroup.IsLargest, InStep, LastPass, RdmaGroup.IsPass;
      IsPassBy(j.settings, j.sizes[l.call], l.posted, Depths(j, l), arrived, w.posted, Depths(j, w), Deepest(j, l));
    }
  }

  lemma IsPassBy(s: Settings, size: nat, posted: nat, tx: seq<nat>, arrived: seq<bool>, posted': nat, tx': seq<nat>,
                 depth: nat)
    requires Usable(s) && |tx| == |tx'| == |arrived| == QpNum(s, size) && posted <= posted' <= TotalBlocks(s, size)
    requires RdmaGroup.IsLargest(tx, depth) && depth <= MaxOutstanding(s)
    requires !(posted == TotalBlocks(s, size) && depth == 0)
    requires posted' - posted == Min(MaxOutstanding(s) - depth, TotalBlocks(s, size) - posted)
    requires forall i :: 0 <= i < |tx| ==>
               && tx[i] <= depth
               && tx'[i] == tx[i] + (posted' - posted) - (if arrived[i] && tx[i] + (posted' - posted) > 0 then 1 else 0)
    ensures RdmaGroup.IsPass(s, size, posted, tx, arrived, posted', tx')
  {
  }

  // ---- Calls that have returned ----------------------------------------------------------------

  /** Host r has returned from call k. */
  predicate Returned(g: Run, r: nat, k: nat)
  {
    r < |g.loops| && g.loops[r].call > k
  }

  /** None of host r's queue pairs has broken. */
  predicate Healthy(g: Run, r: nat)
  {
    forall i: nat :: i < QPS ==> (r, i) !in g.broken
  }

  /** A call returns on a healthy queue pair only when all its packets have been acknowledged. */
  lemma ReturnedIsAcked(j: Job, g: Run, r: nat, k: nat, i: nat)
    requires RunInv(j, g) && Returned(g, r, k) && i < QPS && (r, i) !in g.broken
    ensures r < j.n && k < |j.sizes| && Base(j, k + 1, i) <= g.channels[i].hosts[r].acked
  {
    var l := g.loops[r];
    LinkedAt(j, g, r, i);
    AckedPastBase(j, l, g.channels[i].hosts[r], i);
    hide Base, Linked, InStep, Channel, Reachable;
    BaseGrows(j, k + 1, l.call, i);
  }

  lemma LinkedAt(j: Job, g: Run, r: nat, i: nat)
    requires RunInv(j, g) && r < j.n && i < QPS && (r, i) !in g.broken
    ensures InStep(j, g.loops[r]) && Linked(j, g.loops[r], g.channels[i].hosts[r], i)
  {
    hide Base, Linked, Channel, Reachable;
  }

  lemma AckedPastBase(j: Job, l: Loop, h: Host, i: nat)
    requires Usable(j.settings) && InStep(j, l) && i < QPS && Linked(j, l, h, i)
    ensures Base(j, l.call, i) <= h.acked
  {
    hide Base, Packed;
  }

  /** A zero-length write is never acknowledged, so a call that posts one returns, if it does, only because a
      queue pair has broken and its requests were completed with an error that the loop does not look at. */
  lemma {:induction false} EmptyWriteBreaks(j: Job, g: Run, r: nat, k: nat)
    requires Occurs(j, g) && Returned(g, r, k) && k < |j.sizes| && HasEmptyWrite(j.settings, j.sizes[k])
    ensures !Healthy(g, r)
  {
    OccursInv(j, g);
    var i, p := CallHasEmpty(j, k);
    ChannelInv(j, g, i);
    EmptyBlocks(Channel(j, i), g.channels[i], p, r);
    hide RunInv, Channel;
    if (r, i) !in g.broken { ReturnedIsAcked(j, g, r, k, i); }
  }

  // ---- The result ------------------------------------------------------------------------------

  function Inputs(j: Job, k: nat, x: nat): SwitchPipeline.Inputs
  {
    (r: nat) => j.buffers(k, r, x)
  }

  ghost predicate Carried(s: Settings, size: nat, i: nat, at: nat, x: nat)
    requires Usable(s)
  {
    i < QpNum(s, size) && at < |Stream(s, size, i)| && Stream(s, size, i)[at] == BufferPacket(x)
  }

  lemma PlaceExists(s: Settings, size: nat, x: nat)
    requires Usable(s) && x * MTU < size
    ensures exists i: nat, at: nat :: Carried(s, size, i, at, x)
  {
    var i, at := EveryPacketTravels(s, size, x);
    assert Carried(s, size, i, at, x);
  }

  /** The queue pair and position that carry packet x; there is exactly one. */
  ghost function Place(s: Settings, size: nat, x: nat): (p: (nat, nat))
    requires Usable(s) && x * MTU < size
    ensures Carried(s, size, p.0, p.1, x)
    ensures forall i: nat, at: nat :: Carried(s, size, i, at, x) ==> p == (i, at)
  {
    PlaceExists(s, size, x);
    var i: nat, at: nat :| Carried(s, size, i, at, x);
    assert forall i': nat, at': nat :: Carried(s, size, i', at', x) ==> (i, at) == (i', at') by {
      forall i': nat, at': nat | Carried(s, size, i', at', x) ensures (i, at) == (i', at') {
        NoPacketTravelsTwice(s, size, i, at, i', at');
      }
    }
    (i, at)
  }

  /** Packet x of call k is at this position of this queue pair's group. */
  lemma PlaceInChannel(j: Job, k: nat, x: nat, i: nat, at: nat)
    requires Usable(j.settings) && k < |j.sizes| && Carried(j.settings, j.sizes[k], i, at, x)
    ensures i < QPS && Base(j, k, i) + at < Base(j, k + 1, i) && !Channel(j, i).empty(Base(j, k, i) + at)
    ensures forall r: nat :: Channel(j, i).input(r, Base(j, k, i) + at) == j.buffers(k, r, x)
  {
    hide CallStream, Base, Channel, Stream, Padded, QpNum;
    CallStreamIs(j, k, i);
    ChannelAt(j, k, i, at);
  }

  lemma CallStreamIs(j: Job, k: nat, i: nat)
    requires j.settings.blockSize > 0 && k < |j.sizes| && i < QpNum(j.settings, j.sizes[k])
    ensures i < QPS && CallStream(j, k, i) == Stream(j.settings, j.sizes[k], i)
  {
    hide Stream;
  }

  /** Host r has returned from call k without trouble, so the result for each packet is there. */
  lemma ResultIsWritten(j: Job, g: Run, r: nat, k: nat, x: nat, i: nat, at: nat)
    requires Occurs(j, g) && Returned(g, r, k) && Healthy(g, r) && k < |j.sizes|
    requires Carried(j.settings, j.sizes[k], i, at, x)
    ensures RunInv(j, g) && i < QPS && r < |g.channels[i].hosts| == j.n
    ensures Base(j, k, i) + at < |g.channels[i].hosts[r].results|
  {
    OccursInv(j, g);
    PlaceInChannel(j, k, x, i, at);
    hide Carried, Base, Channel;
    ReturnedIsAcked(j, g, r, k, i);
    ChannelInv(j, g, i);
    CompletionImpliesResult(Channel(j, i), g.channels[i], r);
  }

  /** Packet x of host r's buffer when call k returns. */
  ghost function BufferAfter(j: Job, g: Run, r: nat, k: nat, x: nat): Payload
    requires Occurs(j, g) && Returned(g, r, k) && Healthy(g, r) && k < |j.sizes| && x * MTU < j.sizes[k]
  {
    var (i, at) := Place(j.settings, j.sizes[k], x);
    ResultIsWritten(j, g, r, k, x, i, at);
    Cell(Channel(j, i), r, g.channels[i].hosts[r], Base(j, k, i) + at)
  }

  /** Any two hosts whose call has returned on healthy queue pairs have equal buffers, word for word. */
  lemma {:induction false} BuffersAgree(j: Job, g: Run, r: nat, q: nat, k: nat, x: nat)
    requires Occurs(j, g) && k < |j.sizes| && x * MTU < j.sizes[k]
    requires Returned(g, r, k) && Healthy(g, r) && Returned(g, q, k) && Healthy(g, q)
    ensures BufferAfter(j, g, r, k, x) == BufferAfter(j, g, q, k, x)
  {
    hide Carried, Base, Place;
    var (i, at) := Place(j.settings, j.sizes[k], x);
    ResultIsWritten(j, g, r, k, x, i, at);
    ResultIsWritten(j, g, q, k, x, i, at);
    ChannelInv(j, g, i);
    ResultsAgree(Channel(j, i), g.channels[i], r, q, Base(j, k, i) + at);
  }

  lemma SameInputs(p: Payload, f: SwitchPipeline.Inputs, g: SwitchPipeline.Inputs, n: nat)
    requires forall r: nat :: f(r) == g(r)
    ensures PayloadsFit(f, n) <==> PayloadsFit(g, n)
    ensures IsElementwiseSum(p, f, n) <==> IsElementwiseSum(p, g, n)
  {
    forall odd: bool, i: nat | i < PAIRS
      ensures Column(f, Ranks(n), odd, i) == Column(g, Ranks(n), odd, i)
    {
      assert forall k :: 0 <= k < n ==> Column(f, Ranks(n), odd, i)[k] == Column(g, Ranks(n), odd, i)[k];
    }
  }

  /** And it is the elementwise sum of all buffers as they were when the hosts began the call, although every
      buffer is source and target at once, provided the words fit. Whether other hosts have returned, or
      are in later calls, or have broken queue pairs, makes no difference. */
  lemma {:induction false} AllreduceSums(j: Job, g: Run, r: nat, k: nat, x: nat)
    requires Occurs(j, g) && k < |j.sizes| && x * MTU < j.sizes[k]
    requires Returned(g, r, k) && Healthy(g, r) && PayloadsFit(Inputs(j, k, x), j.n)
    ensures IsElementwiseSum(BufferAfter(j, g, r, k, x), Inputs(j, k, x), j.n)
  {
    hide Carried, Base, Place, PayloadsFit, IsElementwiseSum;
    var (i, at) := Place(j.settings, j.sizes[k], x);
    SumAtPlace(j, g, r, k, x, i, at);
  }

  lemma SumAtPlace(j: Job, g: Run, r: nat, k: nat, x: nat, i: nat, at: nat)
    requires Occurs(j, g) && Returned(g, r, k) && Healthy(g, r) && k < |j.sizes|
    requires Carried(j.settings, j.sizes[k], i, at, x) && PayloadsFit(Inputs(j, k, x), j.n)
    ensures i < QPS <= |g.channels| && r < |g.channels[i].hosts|
    ensures Base(j, k, i) + at < |g.channels[i].hosts[r].results|
    ensures IsElementwiseSum(g.channels[i].hosts[r].results[Base(j, k, i) + at], Inputs(j, k, x), j.n)
  {
    hide PayloadsFit, IsElementwiseSum, Base, Carried, Healthy, Reachable;
    ResultIsWritten(j, g, r, k, x, i, at);
    PlaceInChannel(j, k, x, i, at);
    ChannelInv(j, g, i);
    SumsAt(Channel(j, i), g.channels[i], r, Base(j, k, i) + at, Inputs(j, k, x));
  }

  lemma SumsAt(c: Config, s: System, r: nat, p: nat, inputs: SwitchPipeline.Inputs)
    requires Valid(c) && Reachable(c, s) && r < |s.hosts| && p < |s.hosts[r].results|
    requires PayloadsFit(inputs, c.n) && forall q: nat :: c.input(q, p) == inputs(q)
    ensures IsElementwiseSum(s.hosts[r].results[p], inputs, c.n)
  {
    SameInputs(s.hosts[r].results[p], InputsAt(c, p), inputs, c.n);
    ResultsAreSums(c, s, r, p);
  }
}
