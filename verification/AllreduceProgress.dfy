/** When the hosts' loops can come to their end: with all queue pairs healthy, exactly when no call posts a
    zero-length write; and, if adapters give up, always. */
module AllreduceProgress {
  import opened Paths
  import opened Protocol
  import opened ProtocolSafety
  import opened ProtocolProgress
  import opened BlockPlan
  import opened PacketPlan
  import opened RunPlan
  import opened AllreduceRun
  import opened AllreduceCall

  // ---- Continuations ---------------------------------------------------------------------------

  /** Nothing is lost and no adapter gives up. */
  predicate Smooth(e: Event)
  {
    !e.GiveUp? && (e.Net? ==> Conveys(e.step))
  }

  ghost predicate SmoothNext(j: Job, g: Run, g': Run)
  {
    Shaped(j, g) && exists e :: Smooth(e) && Allowed(j, g, e) && g' == After(j, g, e)
  }

  ghost function Smoothly(j: Job): (Run, Run) -> bool
  {
    (g, g') => SmoothNext(j, g, g')
  }

  ghost predicate CanGo(j: Job, g: Run, g': Run)
  {
    Reaches(Smoothly(j), g, g')
  }

  lemma CanGoSelf(j: Job, g: Run)
    ensures CanGo(j, g, g)
  {
    ReachesSelf(Smoothly(j), g);
  }

  lemma CanGoTrans(j: Job, a: Run, b: Run, d: Run)
    requires CanGo(j, a, b) && CanGo(j, b, d)
    ensures CanGo(j, a, d)
  {
    ReachesTrans(Smoothly(j), a, b, d);
  }

  lemma Go(j: Job, g: Run, e: Event)
    requires RunInv(j, g) && Smooth(e) && Allowed(j, g, e)
    ensures CanGo(j, g, After(j, g, e)) && RunInv(j, After(j, g, e)) && After(j, g, e).broken == g.broken
  {
    EventKeeps(j, g, e);
    assert SmoothNext(j, g, After(j, g, e));
    ReachesStep(Smoothly(j), g, After(j, g, e));
  }

  /** Moves of one group are moves of the run, as long as no queue pair is broken. */
  lemma GroupMoves(j: Job, g: Run, i: nat, s: System)
    requires RunInv(j, g) && g.broken == {} && i < QPS && CanMove(Channel(j, i), g.channels[i], s)
    ensures CanGo(j, g, g.(channels := g.channels[i := s])) && RunInv(j, g.(channels := g.channels[i := s]))
  {
    var f := (t: System) => g.(channels := g.channels[i := t]);
    var inv := (t: System) => RunInv(j, f(t));
    assert f(g.channels[i]) == g;
    forall a, b | inv(a) && Moving(Channel(j, i))(a, b) ensures inv(b) && Smoothly(j)(f(a), f(b)) {
      var step :| Conveys(step) && Enabled(Channel(j, i), a, step) && b == Apply(Channel(j, i), a, step);
      assert f(a).channels[i] == a;
      var e := Net(i, step);
      assert After(j, f(a), e) == f(b) by { assert f(a).channels[i := b] == g.channels[i := b]; }
      EventKeeps(j, f(a), e);
      assert Smooth(e) && SmoothNext(j, f(a), f(b));
    }
    ReachesMaps(Moving(Channel(j, i)), inv, Smoothly(j), f, g.channels[i], s);
    ReachesKeeps(Moving(Channel(j, i)), inv, g.channels[i], s);
  }

  // ---- One host --------------------------------------------------------------------------------

  /** Only host r's loop, and what it has posted, differ. */
  ghost predicate OnlyHost(j: Job, g: Run, g': Run, r: nat)
  {
    && Shaped(j, g) && Shaped(j, g') && r < j.n
    && g'.loops == g.loops[r := g'.loops[r]] && g'.broken == g.broken
    && forall i, x :: 0 <= i < QPS && 0 <= x < j.n ==>
         && g'.channels[i].hosts[x].acked == g.channels[i].hosts[x].acked
         && (x != r ==> g'.channels[i].hosts[x] == g.channels[i].hosts[x])
  }

  lemma OnlyHostTrans(j: Job, a: Run, b: Run, d: Run, r: nat)
    requires OnlyHost(j, a, b, r) && OnlyHost(j, b, d, r)
    ensures OnlyHost(j, a, d, r)
  {
  }

  lemma PassOne(j: Job, g: Run, r: nat) returns (g': Run)
    requires RunInv(j, g) && Allowed(j, g, Pass(r))
    ensures RunInv(j, g') && CanGo(j, g, g') && OnlyHost(j, g, g', r) && g'.loops[r] == AfterPass(j, g.loops[r])
  {
    g' := After(j, g, Pass(r));
    Go(j, g, Pass(r));
    hide Channel, Handed, AfterPass, RunInv, CanGo;
    forall i | 0 <= i < QPS ensures g'.channels[i] == Posted(g.channels[i], r, Handed(j, g, r, i)) {
      PassOnChannel(j, g, r, i);
    }
  }

  lemma PollOne(j: Job, g: Run, r: nat, take: bool) returns (g': Run)
    requires RunInv(j, g) && Allowed(j, g, Poll(r, take))
    ensures RunInv(j, g') && CanGo(j, g, g') && OnlyHost(j, g, g', r)
    ensures g'.loops[r] == AfterPoll(j, g.loops[r], take) && g'.channels == g.channels
  {
    g' := After(j, g, Poll(r, take));
    Go(j, g, Poll(r, take));
    hide Channel, AfterPoll, RunInv, CanGo;
  }

  /** Polling without finding anything leads back to the loop head. */
  lemma {:induction false} ToHead(j: Job, g: Run, r: nat) returns (g': Run)
    requires RunInv(j, g) && r < j.n && Busy(j, g.loops[r])
    ensures RunInv(j, g') && CanGo(j, g, g') && OnlyHost(j, g, g', r)
    ensures g'.loops[r] == g.loops[r].(phase := Head)
    decreases if g.loops[r].phase.Head? then 0 else QPS + 1 - g.loops[r].phase.next
  {
    if g.loops[r].phase == Head {
      g' := g;
      CanGoSelf(j, g);
    } else {
      PollKeepsLoop(j, g.loops[r], false);
      var m := PollOne(j, g, r, false);
      hide RunInv, CanGo;
      g' := ToHead(j, m, r);
      CanGoTrans(j, g, m, g');
      OnlyHostTrans(j, g, m, g', r);
    }
  }

  // ---- Where the hosts are ---------------------------------------------------------------------

  /** The first b blocks of call k are completed. */
  predicate Past(j: Job, l: Loop, k: nat, b: nat)
    requires k < |j.sizes|
  {
    l.call > k || (l.call == k && |l.completed| == QPS && forall i :: 0 <= i < Qps(j, k) ==> b <= l.completed[i])
  }

  /** Block b of call k is posted. */
  predicate Ahead(l: Loop, k: nat, b: nat)
  {
    l.call > k || (l.call == k && b < l.posted)
  }

  ghost predicate AllPast(j: Job, g: Run, k: nat, b: nat)
  {
    && k < |j.sizes| && |g.loops| == j.n
    && forall r :: 0 <= r < j.n ==> Past(j, g.loops[r], k, b)
  }

  lemma PastIsBusy(j: Job, l: Loop, k: nat, b: nat)
    requires Usable(j.settings) && InStep(j, l) && k < |j.sizes| && Past(j, l, k, b) && l.call <= k
    ensures Busy(j, l) && b <= l.posted
  {
    assert b <= l.completed[0] <= l.posted;
  }

  /** With nothing outstanding, a pass posts at least one block more. */
  lemma PushesOne(j: Job, l: Loop)
    requires Busy(j, l) && l.posted < Blocks(j, l.call) && Deepest(j, l) == 0
    ensures !LastPass(j, l) && Pushed(j, l) > l.posted
  {
    RdmaGroup.RoomForOne(j.settings);
  }

  /** A host that has completed everything before block b can post block b. */
  lemma OpenHost(j: Job, g: Run, r: nat, k: nat, b: nat) returns (g': Run)
    requires RunInv(j, g) && r < j.n && k < |j.sizes| && b < Blocks(j, k) && Past(j, g.loops[r], k, b)
    ensures RunInv(j, g') && CanGo(j, g, g') && OnlyHost(j, g, g', r)
    ensures Past(j, g'.loops[r], k, b) && Ahead(g'.loops[r], k, b)
  {
    var l := g.loops[r];
    if Ahead(l, k, b) {
      g' := g;
      CanGoSelf(j, g);
    } else {
      PastIsBusy(j, l, k, b);
      hide RunInv, CanGo;
      var m := ToHead(j, g, r);
      assert Deepest(j, m.loops[r]) == 0;
      PushesOne(j, m.loops[r]);
      AllowPass(j, m, r);
      g' := PassOne(j, m, r);
      CanGoTrans(j, g, m, g');
      OnlyHostTrans(j, g, m, g', r);
    }
  }

  lemma AllowPass(j: Job, g: Run, r: nat)
    requires RunInv(j, g) && r < j.n && g.loops[r].call < |j.sizes| && g.loops[r].phase == Head
    ensures Shaped(j, g) && Allowed(j, g, Pass(r)) && Busy(j, g.loops[r])
  {
  }

  lemma {:induction false} OpenHosts(j: Job, g: Run, k: nat, b: nat, m: nat) returns (g': Run)
    requires RunInv(j, g) && m <= j.n && AllPast(j, g, k, b) && b < Blocks(j, k)
    ensures RunInv(j, g') && CanGo(j, g, g') && AllPast(j, g', k, b) && g'.broken == g.broken
    ensures forall r :: 0 <= r < m ==> Ahead(g'.loops[r], k, b)
  {
    if m == 0 {
      g' := g;
      CanGoSelf(j, g);
    } else {
      var t := OpenHosts(j, g, k, b, m - 1);
      g' := OpenHost(j, t, m - 1, k, b);
      hide RunInv, CanGo, Past, Ahead;
      CanGoTrans(j, g, t, g');
    }
  }

  // ---- One block -------------------------------------------------------------------------------

  /** Everybody's packets of block b on queue pair i are acknowledged. */
  ghost predicate BlockAcked(j: Job, g: Run, k: nat, b: nat, i: nat)
    requires Shaped(j, g) && k < |j.sizes| && b < Blocks(j, k) && i < QPS
  {
    forall r :: 0 <= r < j.n ==> Base(j, k, i) + Packed(j, k, i, b + 1) <= g.channels[i].hosts[r].acked
  }

  /** A host that is past b and ahead of it has acknowledged what is before and posted what is in it. */
  lemma BlockIsPosted(j: Job, g: Run, k: nat, b: nat, i: nat, r: nat)
    requires RunInv(j, g) && (r, i) !in g.broken && r < j.n && k < |j.sizes| && b < Blocks(j, k) && i < Qps(j, k)
    requires Past(j, g.loops[r], k, b) && Ahead(g.loops[r], k, b)
    ensures Base(j, k, i) + Packed(j, k, i, b) <= g.channels[i].hosts[r].acked
    ensures Base(j, k, i) + Packed(j, k, i, b + 1) <= g.channels[i].hosts[r].posted
    ensures Base(j, k, i) + Packed(j, k, i, b + 1) <= Base(j, k + 1, i)
  {
    hide Base, Packed, Blocks, Qps, Channel, Reachable;
    var l, h := g.loops[r], g.channels[i].hosts[r];
    assert Linked(j, l, h, i);
    PackedGrows(j, k, i, b + 1, Blocks(j, k));
    PackedGrows(j, k, i, b, Blocks(j, k));
    NextBase(j, k, i);
    if l.call == k {
      PackedGrows(j, k, i, b + 1, l.posted);
      PackedGrows(j, k, i, b, l.completed[i]);
    } else {
      BaseGrows(j, k + 1, l.call, i);
    }
  }

  /** So block b can be exchanged on queue pair i. */
  lemma BlockIsReady(j: Job, g: Run, k: nat, b: nat, i: nat)
    requires RunInv(j, g) && g.broken == {} && AllPast(j, g, k, b) && b < Blocks(j, k) && i < Qps(j, k)
    requires (forall r :: 0 <= r < j.n ==> Ahead(g.loops[r], k, b)) && !HasEmptyWrite(j.settings, j.sizes[k])
    ensures Base(j, k, i) + Packed(j, k, i, b) <= Base(j, k, i) + Packed(j, k, i, b + 1) <= Base(j, k + 1, i)
    ensures forall r :: 0 <= r < j.n ==>
              && Base(j, k, i) + Packed(j, k, i, b) <= |g.channels[i].hosts[r].results|
              && Base(j, k, i) + Packed(j, k, i, b + 1) <= g.channels[i].hosts[r].posted
  {
    PackedGrows(j, k, i, b, b + 1);
    hide Base, Packed, Blocks, HasEmptyWrite, Past, Ahead;
    forall r | 0 <= r < j.n
      ensures Base(j, k, i) + Packed(j, k, i, b) <= |g.channels[i].hosts[r].results|
      ensures Base(j, k, i) + Packed(j, k, i, b + 1) <= g.channels[i].hosts[r].posted
    {
      HostIsReady(j, g, k, b, i, r);
    }
    HostIsReady(j, g, k, b, i, 0);
  }

  lemma HostIsReady(j: Job, g: Run, k: nat, b: nat, i: nat, r: nat)
    requires RunInv(j, g) && (r, i) !in g.broken && r < j.n && k < |j.sizes| && b < Blocks(j, k) && i < Qps(j, k)
    requires Past(j, g.loops[r], k, b) && Ahead(g.loops[r], k, b)
    ensures Base(j, k, i) + Packed(j, k, i, b) <= |g.channels[i].hosts[r].results|
    ensures Base(j, k, i) + Packed(j, k, i, b + 1) <= g.channels[i].hosts[r].posted
    ensures Base(j, k, i) + Packed(j, k, i, b + 1) <= Base(j, k + 1, i)
  {
    hide Base, Packed;
    BlockIsPosted(j, g, k, b, i, r);
    ChannelInv(j, g, i);
    CompletionImpliesResult(Channel(j, i), g.channels[i], r);
  }

  lemma ExchangeBlock(j: Job, g: Run, k: nat, b: nat, i: nat) returns (g': Run)
    requires RunInv(j, g) && g.broken == {} && AllPast(j, g, k, b) && b < Blocks(j, k) && i < Qps(j, k)
    requires (forall r :: 0 <= r < j.n ==> Ahead(g.loops[r], k, b)) && !HasEmptyWrite(j.settings, j.sizes[k])
    ensures RunInv(j, g') && CanGo(j, g, g') && g'.loops == g.loops && g'.broken == g.broken
    ensures Shaped(j, g') && BlockAcked(j, g', k, b, i)
    ensures forall x :: 0 <= x < QPS && x != i ==> g'.channels[x] == g.channels[x]
  {
    BlockIsReady(j, g, k, b, i);
    ChannelInv(j, g, i);
    var d, e := Base(j, k, i) + Packed(j, k, i, b), Base(j, k, i) + Packed(j, k, i, b + 1);
    forall p: nat | d <= p < e ensures !Channel(j, i).empty(p) { CallHasNoEmpty(j, k, i, p); }
    assert Channel(j, i).n == j.n;
    hide RunInv, Channel, Base, Packed, CanGo, CanMove, HasEmptyWrite, Past, Ahead;
    var t := CompleteUpTo(Channel(j, i), g.channels[i], d, e);
    g' := g.(channels := g.channels[i := t]);
    GroupMoves(j, g, i, t);
  }

  /** Exchange what is posted up to e, and learn of it. */
  lemma CompleteUpTo(c: Config, s: System, d: nat, e: nat) returns (t: System)
    requires Inv(c, s) && d <= e && forall p: nat :: d <= p < e ==> !c.empty(p)
    requires forall r :: 0 <= r < c.n ==> d <= |s.hosts[r].results| && e <= s.hosts[r].posted
    ensures CanMove(c, s, t) && |t.hosts| == c.n && forall r :: 0 <= r < c.n ==> e <= t.hosts[r].acked
  {
    var a := ExchangeUpTo(c, s, d, e);
    t := AckAll(c, a, c.n, c.n);
    CanMoveTrans(c, s, a, t);
  }

  /** A completion that is acknowledged can be polled. */
  lemma AllowPoll(j: Job, g: Run, r: nat, take: bool)
    requires RunInv(j, g) && r < j.n && g.loops[r].call < |j.sizes| && g.loops[r].phase.Polling?
    requires var (l, i) := (g.loops[r], g.loops[r].phase.next);
             take ==>
               && i < QPS && |l.completed| == QPS && l.completed[i] < l.posted <= Blocks(j, l.call)
               && Base(j, l.call, i) + Packed(j, l.call, i, l.completed[i] + 1) <= g.channels[i].hosts[r].acked
    ensures Shaped(j, g) && Busy(j, g.loops[r]) && Allowed(j, g, Poll(r, take))
  {
  }

  /** Poll one queue pair for block b, if that is what is next on it. */
  lemma PollFor(j: Job, g: Run, r: nat, k: nat, b: nat) returns (g': Run)
    requires RunInv(j, g) && r < j.n && k < |j.sizes| && b < Blocks(j, k)
    requires g.loops[r].call == k && g.loops[r].phase.Polling? && Past(j, g.loops[r], k, b) && b < g.loops[r].posted
    requires var i := g.loops[r].phase.next;
             i < Qps(j, k) && Base(j, k, i) + Packed(j, k, i, b + 1) <= g.channels[i].hosts[r].acked
    ensures RunInv(j, g') && CanGo(j, g, g') && OnlyHost(j, g, g', r) && Past(j, g'.loops[r], k, b)
    ensures var (l, i) := (g.loops[r], g.loops[r].phase.next);
            && g'.loops[r].call == k && g'.loops[r].posted == l.posted && b < g'.loops[r].completed[i]
            && (forall x :: 0 <= x < QPS && x != i ==> g'.loops[r].completed[x] == l.completed[x])
            && g'.loops[r].phase == if i + 1 < Qps(j, k) then Polling(i + 1) else Head
  {
    var l := g.loops[r];
    assert l.posted <= Blocks(j, k);
    AllowPoll(j, g, r, l.completed[l.phase.next] == b);
    hide RunInv, CanGo, Allowed, Base, Packed, Blocks;
    g' := PollOne(j, g, r, l.completed[l.phase.next] == b);
  }

  /** Host r's packets of block b are acknowledged on the queue pairs that call k uses. */
  ghost predicate HostAcked(j: Job, g: Run, r: nat, k: nat, b: nat)
    requires Shaped(j, g) && r < j.n && k < |j.sizes| && b < Blocks(j, k)
  {
    forall i :: 0 <= i < Qps(j, k) ==> Base(j, k, i) + Packed(j, k, i, b + 1) <= g.channels[i].hosts[r].acked
  }

  lemma HostStaysAcked(j: Job, g: Run, g': Run, r: nat, x: nat, k: nat, b: nat)
    requires OnlyHost(j, g, g', r) && x < j.n && k < |j.sizes| && b < Blocks(j, k) && HostAcked(j, g, x, k, b)
    ensures HostAcked(j, g', x, k, b)
  {
    hide Base, Packed, Blocks;
  }

  /** At the polls of call k, with block b posted and acknowledged but not yet polled everywhere. */
  ghost predicate AtPolls(j: Job, g: Run, r: nat, k: nat, b: nat)
  {
    && Shaped(j, g) && r < j.n && k < |j.sizes| && b < Blocks(j, k) && HostAcked(j, g, r, k, b)
    && g.loops[r].call == k && Past(j, g.loops[r], k, b) && b < g.loops[r].posted
  }

  lemma PollNext(j: Job, g: Run, r: nat, k: nat, b: nat, i: nat) returns (g': Run)
    requires RunInv(j, g) && AtPolls(j, g, r, k, b) && g.loops[r].phase == Polling(i) && i < Qps(j, k)
    ensures RunInv(j, g') && CanGo(j, g, g') && OnlyHost(j, g, g', r) && AtPolls(j, g', r, k, b)
    ensures b < g'.loops[r].completed[i]
    ensures forall x :: 0 <= x < QPS && x != i ==> g'.loops[r].completed[x] == g.loops[r].completed[x]
    ensures g'.loops[r].phase == if i + 1 < Qps(j, k) then Polling(i + 1) else Head
  {
    hide RunInv, CanGo, Base, Packed, Past;
    g' := PollFor(j, g, r, k, b);
    HostStaysAcked(j, g, g', r, r, k, b);
  }

  lemma PollAll(j: Job, g: Run, r: nat, k: nat, b: nat) returns (g': Run)
    requires RunInv(j, g) && AtPolls(j, g, r, k, b) && g.loops[r].phase == Polling(0)
    ensures RunInv(j, g') && CanGo(j, g, g') && OnlyHost(j, g, g', r) && Past(j, g'.loops[r], k, b + 1)
  {
    hide RunInv, CanGo, HostAcked, OnlyHost;
    g' := PollNext(j, g, r, k, b, 0);
    if Qps(j, k) == 2 {
      var t := g';
      g' := PollNext(j, t, r, k, b, 1);
      CanGoTrans(j, g, t, g');
      OnlyHostTrans(j, g, t, g', r);
    }
  }

  /** A host whose packets of block b are acknowledged can poll its completions. */
  lemma TakeBlock(j: Job, g: Run, r: nat, k: nat, b: nat) returns (g': Run)
    requires RunInv(j, g) && r < j.n && k < |j.sizes| && b < Blocks(j, k) && HostAcked(j, g, r, k, b)
    requires Past(j, g.loops[r], k, b) && Ahead(g.loops[r], k, b)
    ensures RunInv(j, g') && CanGo(j, g, g') && OnlyHost(j, g, g', r) && Past(j, g'.loops[r], k, b + 1)
  {
    if Past(j, g.loops[r], k, b + 1) {
      g' := g;
      CanGoSelf(j, g);
    } else {
      PastIsBusy(j, g.loops[r], k, b);
      hide RunInv, CanGo, HostAcked;
      var a := ToHead(j, g, r);
      var m := PassInside(j, a, r, k, b);
      OnlyHostTrans(j, g, a, m, r);
      HostStaysAcked(j, g, m, r, r, k, b);
      hide OnlyHost, Past, Ahead;
      g' := PollAll(j, m, r, k, b);
      CanGoTrans(j, g, a, m);
      CanGoTrans(j, g, m, g');
      OnlyHostTrans(j, g, m, g', r);
    }
  }

  /** A pass that is not the last leads to the polls. */
  lemma PassInside(j: Job, g: Run, r: nat, k: nat, b: nat) returns (g': Run)
    requires RunInv(j, g) && r < j.n && k < |j.sizes| && Busy(j, g.loops[r]) && g.loops[r].call == k
    requires g.loops[r].phase == Head && Past(j, g.loops[r], k, b) && !Past(j, g.loops[r], k, b + 1)
    requires b < g.loops[r].posted
    ensures RunInv(j, g') && CanGo(j, g, g') && OnlyHost(j, g, g', r) && Past(j, g'.loops[r], k, b)
    ensures g'.loops[r].call == k && b < g'.loops[r].posted && g'.loops[r].phase == Polling(0)
  {
    var l := g.loops[r];
    assert Deepest(j, l) > 0;
    PassKeepsLoop(j, l);
    AllowPass(j, g, r);
    hide RunInv, CanGo, Pushed, Deepest;
    g' := PassOne(j, g, r);
  }

  lemma {:induction false} TakeBlocks(j: Job, g: Run, k: nat, b: nat, m: nat) returns (g': Run)
    requires RunInv(j, g) && m <= j.n && AllPast(j, g, k, b) && b < Blocks(j, k)
    requires forall r :: 0 <= r < j.n ==> Ahead(g.loops[r], k, b) && HostAcked(j, g, r, k, b)
    ensures RunInv(j, g') && CanGo(j, g, g') && g'.broken == g.broken && Shaped(j, g')
    ensures forall r :: 0 <= r < j.n ==>
              HostAcked(j, g', r, k, b) && if r < m then Past(j, g'.loops[r], k, b + 1) else g'.loops[r] == g.loops[r]
  {
    if m == 0 {
      g' := g;
      CanGoSelf(j, g);
    } else {
      hide RunInv, CanGo, HostAcked, Past, Ahead;
      var t := TakeBlocks(j, g, k, b, m - 1);
      g' := TakeBlock(j, t, m - 1, k, b);
      CanGoTrans(j, g, t, g');
      forall r | 0 <= r < j.n ensures HostAcked(j, g', r, k, b) { HostStaysAcked(j, t, g', m - 1, r, k, b); }
    }
  }

  lemma EverybodyAcked(j: Job, g: Run, r: nat, k: nat, b: nat)
    requires Shaped(j, g) && r < j.n && k < |j.sizes| && b < Blocks(j, k)
    requires BlockAcked(j, g, k, b, 0) && (Qps(j, k) == 2 ==> BlockAcked(j, g, k, b, 1))
    ensures HostAcked(j, g, r, k, b)
  {
    hide Base, Packed, Blocks;
  }

  /** Everybody can complete one block more. */
  lemma AdvanceBlock(j: Job, g: Run, k: nat, b: nat) returns (g': Run)
    requires RunInv(j, g) && g.broken == {} && AllPast(j, g, k, b) && b < Blocks(j, k)
    requires !HasEmptyWrite(j.settings, j.sizes[k])
    ensures RunInv(j, g') && CanGo(j, g, g') && g'.broken == {} && AllPast(j, g', k, b + 1)
  {
    assert Usable(j.settings);
    hide RunInv, CanGo, Past, Ahead, HasEmptyWrite;
    var a := OpenHosts(j, g, k, b, j.n);
    var t := ExchangeBlock(j, a, k, b, 0);
    CanGoTrans(j, g, a, t);
    var u := t;
    if Qps(j, k) == 2 {
      u := ExchangeBlock(j, t, k, b, 1);
      CanGoTrans(j, g, t, u);
    }
    forall r | 0 <= r < j.n ensures HostAcked(j, u, r, k, b) { EverybodyAcked(j, u, r, k, b); }
    g' := TakeBlocks(j, u, k, b, j.n);
    CanGoTrans(j, g, u, g');
  }

  // ---- Calls -----------------------------------------------------------------------------------

  /** A host that has completed all blocks of call k can return from it. */
  lemma ReturnHost(j: Job, g: Run, r: nat, k: nat) returns (g': Run)
    requires RunInv(j, g) && r < j.n && k < |j.sizes| && Past(j, g.loops[r], k, Blocks(j, k))
    ensures RunInv(j, g') && CanGo(j, g, g') && OnlyHost(j, g, g', r) && g'.loops[r].call > k
  {
    var l := g.loops[r];
    if l.call > k {
      g' := g;
      CanGoSelf(j, g);
    } else {
      PastIsBusy(j, l, k, Blocks(j, k));
      hide RunInv, CanGo;
      var m := ToHead(j, g, r);
      assert LastPass(j, m.loops[r]);
      AllowPass(j, m, r);
      g' := PassOne(j, m, r);
      CanGoTrans(j, g, m, g');
      OnlyHostTrans(j, g, m, g', r);
    }
  }

  lemma {:induction false} ReturnHosts(j: Job, g: Run, k: nat, m: nat) returns (g': Run)
    requires RunInv(j, g) && m <= j.n && k < |j.sizes| && AllPast(j, g, k, Blocks(j, k))
    ensures RunInv(j, g') && CanGo(j, g, g') && g'.broken == g.broken && AllPast(j, g', k, Blocks(j, k))
    ensures forall r :: 0 <= r < m ==> g'.loops[r].call > k
  {
    if m == 0 {
      g' := g;
      CanGoSelf(j, g);
    } else {
      var t := ReturnHosts(j, g, k, m - 1);
      g' := ReturnHost(j, t, m - 1, k);
      hide RunInv, CanGo, Blocks;
      CanGoTrans(j, g, t, g');
    }
  }

  /** Everybody can complete the rest of call k and return from it. */
  lemma {:induction false} AdvanceCall(j: Job, g: Run, k: nat, b: nat) returns (g': Run)
    requires RunInv(j, g) && g.broken == {} && AllPast(j, g, k, b) && b <= Blocks(j, k)
    requires !HasEmptyWrite(j.settings, j.sizes[k])
    ensures RunInv(j, g') && CanGo(j, g, g') && g'.broken == {} && |g'.loops| == j.n
    ensures forall r :: 0 <= r < j.n ==> g'.loops[r].call > k
    decreases Blocks(j, k) - b
  {
    assert Usable(j.settings);
    hide RunInv, CanGo, HasEmptyWrite, Past;
    if b == Blocks(j, k) {
      g' := ReturnHosts(j, g, k, j.n);
    } else {
      var m := AdvanceBlock(j, g, k, b);
      g' := AdvanceCall(j, m, k, b + 1);
      CanGoTrans(j, g, m, g');
    }
  }

  predicate Finished(j: Job, g: Run)
  {
    |g.loops| == j.n && forall r :: 0 <= r < j.n ==> g.loops[r].call == |j.sizes|
  }

  lemma {:induction false} AdvanceAll(j: Job, g: Run, k: nat) returns (g': Run)
    requires RunInv(j, g) && g.broken == {} && k <= |j.sizes|
    requires forall r :: 0 <= r < j.n ==> k <= g.loops[r].call
    requires forall x :: 0 <= x < |j.sizes| ==> !HasEmptyWrite(j.settings, j.sizes[x])
    ensures RunInv(j, g') && CanGo(j, g, g') && g'.broken == {} && Finished(j, g')
    decreases |j.sizes| - k
  {
    if k == |j.sizes| {
      g' := g;
      CanGoSelf(j, g);
    } else {
      assert AllPast(j, g, k, 0) by {
        forall r | 0 <= r < j.n ensures Past(j, g.loops[r], k, 0) { assert InStep(j, g.loops[r]); }
      }
      hide RunInv, CanGo, HasEmptyWrite;
      var m := AdvanceCall(j, g, k, 0);
      g' := AdvanceAll(j, m, k + 1);
      CanGoTrans(j, g, m, g');
    }
  }

  lemma SmoothKeeps(j: Job, g: Run, g': Run)
    requires Occurs(j, g) && CanGo(j, g, g')
    ensures Occurs(j, g') && g'.broken == g.broken
  {
    var inv := (x: Run) => x.broken == g.broken;
    forall a, b | Smoothly(j)(a, b) ensures Events(j)(a, b) && (inv(a) ==> inv(b)) {
      var e :| Smooth(e) && Allowed(j, a, e) && b == After(j, a, e);
      assert NextRun(j, a, b);
    }
    ReachesWeakens(Smoothly(j), Events(j), g, g');
    ReachesTrans(Events(j), Start(j), g, g');
    ReachesKeeps(Smoothly(j), inv, g, g');
  }

  /** From every state that any interleaving and any losses have led to, with no queue pair broken so far,
      all hosts' loops can return from all their calls, with none breaking, if and only if no call posts a
      zero-length write. */
  lemma {:induction false} LoopsFinishIff(j: Job, g: Run)
    requires Occurs(j, g) && g.broken == {}
    ensures (exists g' :: CanGo(j, g, g') && Finished(j, g')) <==>
            forall k :: 0 <= k < |j.sizes| ==> !HasEmptyWrite(j.settings, j.sizes[k])
  {
    hide RunInv, HasEmptyWrite, Occurs, CanGo, Usable;
    OccursInv(j, g);
    JobIsUsable(j, g);
    if forall k :: 0 <= k < |j.sizes| ==> !HasEmptyWrite(j.settings, j.sizes[k]) {
      var g' := AdvanceAll(j, g, 0);
    } else {
      var k :| 0 <= k < |j.sizes| && HasEmptyWrite(j.settings, j.sizes[k]);
      forall g' | CanGo(j, g, g') ensures !Finished(j, g') {
        SmoothKeeps(j, g, g');
        HealthyIsUnfinished(j, g', k);
      }
    }
  }

  lemma HealthyIsUnfinished(j: Job, g: Run, k: nat)
    requires Occurs(j, g) && g.broken == {} && k < |j.sizes| && HasEmptyWrite(j.settings, j.sizes[k])
    ensures !Finished(j, g)
  {
    if Finished(j, g) {
      assert Returned(g, 0, k);
      EmptyWriteBreaks(j, g, 0, k);
    }
  }
}
