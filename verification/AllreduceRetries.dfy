/** What bounded retries and the ignored completion status do: a loop never hangs, whatever is lost and
    whatever the other hosts do, because an adapter that gives up completes what is outstanding with errors,
    and the loop counts those completions like any other. */
module AllreduceRetries {
  import opened Paths
  import opened PacketPlan
  import opened RunPlan
  import opened AllreduceRun
  import opened AllreduceCall
  import opened AllreduceProgress

  ghost predicate CanHappen(j: Job, g: Run, g': Run)
  {
    Reaches(Events(j), g, g')
  }

  lemma CanHappenSelf(j: Job, g: Run)
    ensures CanHappen(j, g, g)
  {
    ReachesSelf(Events(j), g);
  }

  lemma CanHappenTrans(j: Job, a: Run, b: Run, d: Run)
    requires CanHappen(j, a, b) && CanHappen(j, b, d)
    ensures CanHappen(j, a, d)
  {
    ReachesTrans(Events(j), a, b, d);
  }

  lemma Happen(j: Job, g: Run, e: Event)
    requires RunInv(j, g) && Allowed(j, g, e)
    ensures CanHappen(j, g, After(j, g, e)) && RunInv(j, After(j, g, e))
  {
    EventKeeps(j, g, e);
    assert NextRun(j, g, After(j, g, e));
    ReachesStep(Events(j), g, After(j, g, e));
  }

  /** An outstanding request either is completed or can be given up. */
  lemma MakeDue(j: Job, g: Run, r: nat) returns (g': Run)
    requires RunInv(j, g) && r < j.n && Busy(j, g.loops[r]) && g.loops[r].phase.Polling?
    requires g.loops[r].completed[g.loops[r].phase.next] < g.loops[r].posted
    ensures RunInv(j, g') && CanHappen(j, g, g') && g'.loops == g.loops
    ensures Shaped(j, g') && Allowed(j, g', Poll(r, true))
  {
    hide Packed, Base, Blocks, Deepest, Channel, CanHappen;
    var l := g.loops[r];
    var i := l.phase.next;
    g' := g;
    CanHappenSelf(j, g);
    if !Due(j, g, r, i) {
      assert Linked(j, l, g.channels[i].hosts[r], i);
      PackedGrows(j, l.call, i, l.completed[i] + 1, l.posted);
      g' := After(j, g, GiveUp(r, i));
      Happen(j, g, GiveUp(r, i));
    }
  }

  lemma PassNow(j: Job, g: Run, r: nat) returns (g': Run)
    requires RunInv(j, g) && r < j.n && Busy(j, g.loops[r]) && g.loops[r].phase == Head
    ensures RunInv(j, g') && CanHappen(j, g, g') && g'.loops == g.loops[r := AfterPass(j, g.loops[r])]
  {
    AllowPass(j, g, r);
    g' := After(j, g, Pass(r));
    Happen(j, g, Pass(r));
  }

  /** Poll one queue pair, and find a completion if anything is outstanding. */
  lemma PollNow(j: Job, g: Run, r: nat) returns (g': Run)
    requires RunInv(j, g) && r < j.n && Busy(j, g.loops[r]) && g.loops[r].phase.Polling?
    ensures RunInv(j, g') && CanHappen(j, g, g')
    ensures var l := g.loops[r];
            g'.loops == g.loops[r := AfterPoll(j, l, l.completed[l.phase.next] < l.posted)]
  {
    var l := g.loops[r];
    if l.completed[l.phase.next] < l.posted {
      var m := MakeDue(j, g, r);
      g' := After(j, m, Poll(r, true));
      Happen(j, m, Poll(r, true));
      CanHappenTrans(j, g, m, g');
    } else {
      AllowPoll(j, g, r, false);
      g' := After(j, g, Poll(r, false));
      Happen(j, g, Poll(r, false));
    }
  }

  /** Completions the call has still to see. */
  function Owed(j: Job, l: Loop): nat
    requires Busy(j, l)
  {
    (Blocks(j, l.call) - l.completed[0]) + (if Qps(j, l.call) == 2 then Blocks(j, l.call) - l.completed[1] else 0)
  }

  lemma PollOwes(j: Job, l: Loop)
    requires Busy(j, l) && l.phase.Polling?
    ensures var (i, take) := (l.phase.next, l.completed[l.phase.next] < l.posted);
            && Busy(j, AfterPoll(j, l, take)) && AfterPoll(j, l, take).call == l.call
            && Owed(j, AfterPoll(j, l, take)) == Owed(j, l) - (if take then 1 else 0)
  {
    PollKeepsLoop(j, l, l.completed[l.phase.next] < l.posted);
  }

  /** A pass that is not the last leaves something outstanding. */
  lemma PassOwes(j: Job, l: Loop)
    requires Busy(j, l) && l.phase == Head && !LastPass(j, l)
    ensures Busy(j, AfterPass(j, l)) && Owed(j, AfterPass(j, l)) == Owed(j, l)
    ensures Waits(j, AfterPass(j, l))
  {
    PassKeepsLoop(j, l);
    if Deepest(j, l) == 0 {
      PushesOne(j, l);
      assert l.completed[0] < Pushed(j, l);
    } else {
      var i := if Depth(l, 0) > 0 then 0 else 1;
      assert l.completed[i] < Pushed(j, l);
    }
  }

  /** Some queue pair still to be polled in this pass has a request outstanding. */
  predicate Waits(j: Job, l: Loop)
    requires Busy(j, l)
  {
    l.phase.Polling? && exists i :: l.phase.next <= i < Qps(j, l.call) && l.completed[i] < l.posted
  }

  lemma WaitsOn(j: Job, l: Loop)
    requires Busy(j, l) && Waits(j, l) && l.completed[l.phase.next] >= l.posted
    ensures Busy(j, AfterPoll(j, l, false)) && Waits(j, AfterPoll(j, l, false))
  {
    PollKeepsLoop(j, l, false);
  }

  /** Back to the loop head, with no more completions owed, and fewer if any were outstanding. */
  lemma {:induction false} PollToHead(j: Job, g: Run, r: nat) returns (g': Run)
    requires RunInv(j, g) && r < j.n && Busy(j, g.loops[r])
    ensures RunInv(j, g') && CanHappen(j, g, g') && r < |g'.loops| && g'.loops == g.loops[r := g'.loops[r]]
    ensures Busy(j, g'.loops[r]) && g'.loops[r].phase == Head && g'.loops[r].call == g.loops[r].call
    ensures Owed(j, g'.loops[r]) <= Owed(j, g.loops[r])
    ensures Waits(j, g.loops[r]) ==> Owed(j, g'.loops[r]) < Owed(j, g.loops[r])
    decreases if g.loops[r].phase.Head? then 0 else QPS + 1 - g.loops[r].phase.next
  {
    if g.loops[r].phase == Head {
      g' := g;
      CanHappenSelf(j, g);
    } else {
      var l := g.loops[r];
      PollOwes(j, l);
      if Waits(j, l) && l.completed[l.phase.next] >= l.posted { WaitsOn(j, l); }
      var m := PollNow(j, g, r);
      hide RunInv, CanHappen, Owed, Waits;
      g' := PollToHead(j, m, r);
      CanHappenTrans(j, g, m, g');
    }
  }

  /** Host r's loop can return from all its calls. */
  lemma {:induction false} ReturnFromAll(j: Job, g: Run, r: nat) returns (g': Run)
    requires RunInv(j, g) && r < j.n
    ensures RunInv(j, g') && CanHappen(j, g, g') && r < |g'.loops| && g'.loops == g.loops[r := g'.loops[r]]
    ensures g'.loops[r].call == |j.sizes|
    decreases |j.sizes| - g.loops[r].call, if Busy(j, g.loops[r]) then Owed(j, g.loops[r]) else 0,
              if g.loops[r].phase == Head then 0 else 1
  {
    assert InStep(j, g.loops[r]);
    var l := g.loops[r];
    if l.call == |j.sizes| {
      g' := g;
      CanHappenSelf(j, g);
    } else {
      var m := Onward(j, g, r);
      g' := ReturnFromAll(j, m, r);
      hide RunInv, CanHappen;
      CanHappenTrans(j, g, m, g');
    }
  }

  /** One stretch of the way: to the loop head, once around it, or into the next call. */
  lemma Onward(j: Job, g: Run, r: nat) returns (g': Run)
    requires RunInv(j, g) && r < j.n && Busy(j, g.loops[r])
    ensures RunInv(j, g') && CanHappen(j, g, g') && r < |g'.loops| && g'.loops == g.loops[r := g'.loops[r]]
    ensures InStep(j, g'.loops[r]) && g'.loops[r].call >= g.loops[r].call
    ensures g'.loops[r].call == g.loops[r].call ==>
              && Busy(j, g'.loops[r]) && g'.loops[r].phase == Head
              && Owed(j, g'.loops[r]) <= Owed(j, g.loops[r])
              && (g.loops[r].phase == Head ==> Owed(j, g'.loops[r]) < Owed(j, g.loops[r]))
  {
    var l := g.loops[r];
    hide RunInv, CanHappen, Owed;
    if l.phase != Head {
      g' := PollToHead(j, g, r);
    } else {
      PassKeepsLoop(j, l);
      var m := PassNow(j, g, r);
      g' := m;
      if !LastPass(j, l) {
        PassOwes(j, l);
        g' := PollToHead(j, m, r);
        CanHappenTrans(j, g, m, g');
      }
    }
  }

  lemma {:induction false} ReturnEverybody(j: Job, g: Run, m: nat) returns (g': Run)
    requires RunInv(j, g) && m <= j.n
    ensures RunInv(j, g') && CanHappen(j, g, g') && |g'.loops| == j.n
    ensures forall r :: 0 <= r < m ==> g'.loops[r].call == |j.sizes|
  {
    if m == 0 {
      g' := g;
      CanHappenSelf(j, g);
    } else {
      var t := ReturnEverybody(j, g, m - 1);
      g' := ReturnFromAll(j, t, m - 1);
      hide RunInv, CanHappen;
      CanHappenTrans(j, g, t, g');
    }
  }

  /** From every state all loops can return from all their calls, if adapters may give up. With a zero-length
      write that is the only way, and it leaves a queue pair broken at every host. */
  lemma {:induction false} LoopsAlwaysReturn(j: Job, g: Run) returns (g': Run)
    requires Occurs(j, g)
    ensures Occurs(j, g') && CanHappen(j, g, g') && Finished(j, g')
    ensures (exists k :: 0 <= k < |j.sizes| && HasEmptyWrite(j.settings, j.sizes[k])) ==>
              forall r: nat :: r < j.n ==> !Healthy(g', r)
  {
    hide RunInv, Occurs, CanHappen, HasEmptyWrite, Healthy, Channel, Shaped;
    OccursInv(j, g);
    JobIsUsable(j, g);
    g' := ReturnEverybody(j, g, j.n);
    OccursThen(j, g, g');
    if k :| 0 <= k < |j.sizes| && HasEmptyWrite(j.settings, j.sizes[k]) { EmptyWriteBreaksAll(j, g', k); }
  }

  lemma OccursThen(j: Job, g: Run, g': Run)
    requires Occurs(j, g) && CanHappen(j, g, g')
    ensures Occurs(j, g')
  {
    CanHappenTrans(j, Start(j), g, g');
  }

  lemma EmptyWriteBreaksAll(j: Job, g: Run, k: nat)
    requires Occurs(j, g) && Finished(j, g) && k < |j.sizes| && HasEmptyWrite(j.settings, j.sizes[k])
    ensures forall r: nat :: r < j.n ==> !Healthy(g, r)
  {
    hide Occurs, HasEmptyWrite, Healthy;
    forall r: nat | r < j.n ensures !Healthy(g, r) { EmptyWriteBreaks(j, g, r, k); }
  }
}
