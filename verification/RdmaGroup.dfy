/** The host side of allreduce: posting work requests under a window and polling completions. */
module RdmaGroup {
  import opened BlockPlan

  datatype TxRxType = Tx | Rx | TxRx

  /** The largest element of a non-empty prefix of two depth vectors, or zero. */
  function MaxDepth(tx: seq<nat>, rx: seq<nat>, k: nat): nat
    requires k <= |tx| && k <= |rx|
  {
    if k == 0 then 0
    else
      var m := MaxDepth(tx, rx, k - 1);
      var a := if tx[k - 1] > rx[k - 1] then tx[k - 1] else rx[k - 1];
      if a > m then a else m
  }

  lemma {:induction false} MaxDepthIsUpperBound(tx: seq<nat>, rx: seq<nat>, k: nat, i: nat)
    requires i < k <= |tx| && k <= |rx|
    ensures tx[i] <= MaxDepth(tx, rx, k) && rx[i] <= MaxDepth(tx, rx, k)
  {
    if i < k - 1 { MaxDepthIsUpperBound(tx, rx, k - 1, i); }
  }

  lemma {:induction false} MaxDepthIsLeast(tx: seq<nat>, rx: seq<nat>, k: nat, bound: nat)
    requires k <= |tx| && k <= |rx| && forall i :: 0 <= i < k ==> tx[i] <= bound && rx[i] <= bound
    ensures MaxDepth(tx, rx, k) <= bound
  {
    if k > 0 { MaxDepthIsLeast(tx, rx, k - 1, bound); }
  }

  // ---- One pass of the loop ----------------------------------------------------------------------

  lemma SplitStep(offset: nat, n: nat, q: nat, i: nat)
    requires q > 0
    ensures SubRequest(offset, n, q, i) ==
            Request(offset + SubOffset(n, q, i) * MTU, (n / q + (if i < n % q then 1 else 0)) * MTU)
    ensures SubOffset(n, q, i + 1) * MTU == SubOffset(n, q, i) * MTU + SubRequest(offset, n, q, i).length
  {
  }

  lemma DepthOfPass(tx: seq<nat>, rx: seq<nat>, limit: nat)
    requires 1 <= |tx| == |rx| && forall i :: 0 <= i < |tx| ==> rx[i] == 0 && tx[i] <= limit
    ensures MaxDepth(tx, rx, |tx|) <= limit && IsLargest(tx, MaxDepth(tx, rx, |tx|))
  {
    assert tx[..|tx|] == tx;
    MaxDepthIsLeast(tx, rx, |tx|, limit);
    MaxDepthIsLargest(tx, rx, |tx|);
  }

  /** A pass that is not the last: post as much as fits, then take at most one completion per queue pair. */
  ghost predicate IsPass(s: Settings, size: nat, posted: nat, tx: seq<nat>, arrived: seq<bool>, posted': nat,
                         tx': seq<nat>)
    requires Usable(s)
  {
    && |tx| == |tx'| == |arrived| == QpNum(s, size) && posted <= posted' <= TotalBlocks(s, size)
    && (forall i :: 0 <= i < |tx| ==> tx[i] <= MaxOutstanding(s))
    && (exists depth: nat ::
          && IsLargest(tx, depth) && !(posted == TotalBlocks(s, size) && depth == 0)
          && depth <= MaxOutstanding(s)
          && posted' - posted == Min(MaxOutstanding(s) - depth, TotalBlocks(s, size) - posted))
    && (forall i :: 0 <= i < |tx| ==>
          tx'[i] == tx[i] + (posted' - posted) - (if arrived[i] && tx[i] + (posted' - posted) > 0 then 1 else 0))
  }

  ghost predicate IsLargest(xs: seq<nat>, x: nat)
  {
    (forall i :: 0 <= i < |xs| ==> xs[i] <= x) && exists i :: 0 <= i < |xs| && xs[i] == x
  }

  function Outstanding(tx: seq<nat>): nat
  {
    if tx == [] then 0 else Outstanding(tx[..|tx| - 1]) + tx[|tx| - 1]
  }

  lemma {:induction false} OutstandingShrinks(tx: seq<nat>, tx': seq<nat>)
    requires |tx| == |tx'| && forall i :: 0 <= i < |tx| ==> tx'[i] <= tx[i]
    ensures Outstanding(tx') <= Outstanding(tx)
    ensures Outstanding(tx') == Outstanding(tx) ==> tx' == tx
  {
    if tx != [] {
      var n := |tx| - 1;
      OutstandingShrinks(tx[..n], tx'[..n]);
      assert tx == tx[..n] + [tx[n]] && tx' == tx'[..n] + [tx'[n]];
    }
  }

  /** The depth limit leaves room for one request. */
  lemma RoomForOne(s: Settings)
    requires Usable(s)
    ensures MaxOutstanding(s) >= 1
  {
    var w := s.switchWindow / 2;
    assert w / s.blockSize >= 1 by { assert w == s.blockSize * (w / s.blockSize) + w % s.blockSize; }
  }

  /** A pass leaves nothing unposted that the limit has room for. */
  lemma PassFillsWindow(s: Settings, size: nat, posted: nat, tx: seq<nat>, arrived: seq<bool>, posted': nat,
                        tx': seq<nat>)
    requires Usable(s) && IsPass(s, size, posted, tx, arrived, posted', tx')
    ensures || posted' == TotalBlocks(s, size)
            || exists i :: 0 <= i < |tx| && tx'[i] + (if arrived[i] then 1 else 0) >= MaxOutstanding(s)
  {
    var depth: nat :| IsLargest(tx, depth) && depth <= MaxOutstanding(s) &&
      posted' - posted == Min(MaxOutstanding(s) - depth, TotalBlocks(s, size) - posted);
    var i :| 0 <= i < |tx| && tx[i] == depth;
    assert tx'[i] == tx[i] + (posted' - posted) - (if arrived[i] && tx[i] + (posted' - posted) > 0 then 1 else 0);
  }

  /** Every pass but an idle one, which changes nothing, decreases the blocks left or, those being equal,
      the requests outstanding. */
  lemma {:induction false} PassDecreases(s: Settings, size: nat, posted: nat, tx: seq<nat>, arrived: seq<bool>,
                                         posted': nat, tx': seq<nat>)
    requires Usable(s) && IsPass(s, size, posted, tx, arrived, posted', tx')
    ensures posted' > posted || Outstanding(tx') < Outstanding(tx) || (posted' == posted && tx' == tx)
    ensures posted' == posted && tx' == tx ==> forall i :: 0 <= i < |tx| && tx[i] > 0 ==> !arrived[i]
  {
    if posted' == posted { OutstandingShrinks(tx, tx'); }
  }

  lemma {:induction false} MaxDepthIsLargest(tx: seq<nat>, rx: seq<nat>, k: nat)
    requires 1 <= k <= |tx| && k <= |rx| && forall i :: 0 <= i < k ==> rx[i] == 0
    ensures IsLargest(tx[..k], MaxDepth(tx, rx, k))
  {
    assert tx[..k][k - 1] == tx[k - 1];
    if k > 1 {
      MaxDepthIsLargest(tx, rx, k - 1);
      var i :| 0 <= i < k - 1 && tx[..k - 1][i] == MaxDepth(tx, rx, k - 1);
      assert tx[..k][i] == tx[..k - 1][i];
      forall j | 0 <= j < k ensures tx[..k][j] <= MaxDepth(tx, rx, k) {
        if j < k - 1 { assert tx[..k][j] == tx[..k - 1][j]; }
      }
    }
  }

  /** A group with two queue pairs. What the adapter is asked to do is recorded per queue pair:
      the write requests posted, the receives posted, and the completions taken from each queue. */
  class Group {
    const settings: Settings
    var writes: seq<seq<Request>>
    var receives: seq<nat>
    var polled: seq<nat>

    predicate Valid()
      reads this
    {
      Usable(settings) && |writes| == |receives| == |polled| == 2
    }

    constructor (settings: Settings)
      requires Usable(settings)
      ensures Valid() && this.settings == settings && writes == [[], []] && receives == polled == [0, 0]
    {
      this.settings := settings;
      writes, receives, polled := [[], []], [0, 0], [0, 0];
    }

    /** `post_message`: a receive if this side expects a message that consumes one, then the send. */
    method PostMessage(i: nat, request: Request, useSend: bool, notify: bool, kind: TxRxType,
                       tx: array<nat>, rx: array<nat>)
      requires Valid() && i < 2 && i < tx.Length == rx.Length && tx != rx
      modifies this`writes, this`receives, tx, rx
      ensures Valid()
      ensures var r := if !kind.Tx? && (useSend || notify) then 1 else 0;
              receives == old(receives)[i := old(receives)[i] + r] && rx[..] == old(rx[..])[i := old(rx[i]) + r]
      ensures kind.Rx? ==> writes == old(writes) && tx[..] == old(tx[..])
      ensures !kind.Rx? ==> writes == old(writes)[i := old(writes)[i] + [request]] &&
                            tx[..] == old(tx[..])[i := old(tx[i]) + 1]
    {
      if !kind.Tx? && (useSend || notify) {
        receives := receives[i := receives[i] + 1];
        rx[i] := rx[i] + 1;
      }
      if kind.Rx? {
        return;
      }
      writes := writes[i := writes[i] + [request]];
      tx[i] := tx[i] + 1;
    }

    /** `post_message_to_qps`: one message of n packets split over the first q queue pairs. */
    method PostMessageToQps(offset: nat, size: nat, q: nat, tx: array<nat>, rx: array<nat>)
      requires Valid() && 1 <= q <= 2 && q == tx.Length == rx.Length && tx != rx && size % MTU == 0
      modifies this`writes, this`receives, tx, rx
      ensures Valid() && receives == old(receives) && rx[..] == old(rx[..])
      ensures forall i :: 0 <= i < q ==> writes[i] == old(writes)[i] + [SubRequest(offset, size / MTU, q, i)]
      ensures forall i :: q <= i < 2 ==> writes[i] == old(writes)[i]
      ensures forall i :: 0 <= i < q ==> tx[i] == old(tx[i]) + 1
    {
      var packets := size / MTU;
      var qpOffset := offset;
      var i := 0;
      while i < q
        invariant 0 <= i <= q
        invariant Valid() && receives == old(receives) && rx[..] == old(rx[..])
        invariant qpOffset == offset + SubOffset(packets, q, i) * MTU
        invariant forall k :: 0 <= k < i ==>
          writes[k] == old(writes)[k] + [SubRequest(offset, packets, q, k)] && tx[k] == old(tx[k]) + 1
        invariant forall k :: i <= k < 2 ==> writes[k] == old(writes)[k]
        invariant forall k :: i <= k < q ==> tx[k] == old(tx[k])
      {
        hide SubRequest, SubOffset;
        SplitStep(offset, packets, q, i);
        var subSize := (packets / q + (if i < packets % q then 1 else 0)) * MTU;
        PostMessage(i, Request(qpOffset, subSize), false, false, TxRx, tx, rx);
        assert rx[..] == old(rx[..]);
        assert tx[..][i] == old(tx[i]) + 1;
        assert forall k :: 0 <= k < q && k != i ==> tx[..][k] == tx[k];
        qpOffset := qpOffset + subSize;
        i := i + 1;
      }
    }

    /** `poll_cqs`: at most one completion from each queue, whether it reports success or an error, since its
        status is not looked at. Nothing completes that was not posted, so a completion arriving on an empty
        queue is none; the receive queues stay empty. */
    method PollCqs(q: nat, arrived: seq<bool>, tx: array<nat>, rx: array<nat>)
      requires Valid() && 1 <= q <= 2 && q == tx.Length == rx.Length == |arrived| && tx != rx
      modifies this`polled, tx
      ensures Valid()
      ensures forall i :: 0 <= i < q ==>
        var took := if arrived[i] && old(tx[i]) > 0 then 1 else 0;
        tx[i] == old(tx[i]) - took && polled[i] == old(polled)[i] + took
      ensures forall i :: q <= i < 2 ==> polled[i] == old(polled)[i]
    {
      var i := 0;
      while i < q
        invariant 0 <= i <= q && Valid()
        invariant forall k :: 0 <= k < i ==>
          var took := if arrived[k] && old(tx[k]) > 0 then 1 else 0;
          tx[k] == old(tx[k]) - took && polled[k] == old(polled)[k] + took
        invariant forall k :: i <= k < 2 ==> polled[k] == old(polled)[k]
        invariant forall k :: i <= k < q ==> tx[k] == old(tx[k])
      {
        if arrived[i] && tx[i] > 0 {
          tx[i] := tx[i] - 1;
          polled := polled[i := polled[i] + 1];
        }
        i := i + 1;
      }
    }

    method CurrentDepth(q: nat, tx: array<nat>, rx: array<nat>) returns (depth: nat)
      requires q <= tx.Length && q <= rx.Length
      ensures depth == MaxDepth(tx[..], rx[..], q)
    {
      depth := 0;
      var i := 0;
      while i < q
        invariant 0 <= i <= q && depth == MaxDepth(tx[..], rx[..], i)
      {
        var a := if tx[i] > rx[i] then tx[i] else rx[i];
        if a > depth { depth := a; }
        i := i + 1;
      }
    }
  
    /** Queue pair i has been given, since it held `base`, exactly the first k requests of the plan. */
    ghost predicate Posted(base: seq<seq<Request>>, size: nat, q: nat, k: nat)
      requires Valid() && |base| == 2 && q <= 2 && k <= TotalBlocks(settings, size)
      reads this
    {
      && (forall i :: 0 <= i < q ==> writes[i] == base[i] + QpPlan(settings, size, i, k))
      && (forall i :: q <= i < 2 ==> writes[i] == base[i])
    }

    /** The inner loop: `count` more blocks of a call that has posted `from` of them. */
    method PushBlocks(size: nat, from: nat, count: nat, tx: array<nat>, rx: array<nat>, ghost base: seq<seq<Request>>)
      requires Valid() && tx != rx && QpNum(settings, size) == tx.Length == rx.Length
      requires from + count <= TotalBlocks(settings, size) && |base| == 2 && Posted(base, size, tx.Length, from)
      modifies this`writes, this`receives, tx, rx
      ensures Valid() && receives == old(receives) && rx[..] == old(rx[..])
      ensures Posted(base, size, tx.Length, from + count)
      ensures forall i :: 0 <= i < tx.Length ==> tx[i] == old(tx[i]) + count
    {
      var q := tx.Length;
      var padded, merged := Padded(size), MergedBlock(settings, size);
      var k := 0;
      while k < count
        invariant 0 <= k <= count
        invariant Valid() && receives == old(receives) && rx[..] == old(rx[..])
        invariant Posted(base, size, q, from + k)
        invariant forall i :: 0 <= i < q ==> tx[i] == old(tx[i]) + k
      {
        BlockBytes(settings, size, from + k);
        var offset := (from + k) * merged;
        var message := Min(merged, padded - offset);
        PostMessageToQps(offset, message, q, tx, rx);
        forall i | 0 <= i < q
          ensures QpPlan(settings, size, i, from + k + 1) ==
                  QpPlan(settings, size, i, from + k) + [SubRequest(offset, message / MTU, q, i)]
        {
          assert RequestOf(settings, size, from + k, i) == SubRequest(offset, message / MTU, q, i);
        }
        k := k + 1;
      }
    }

    /** One pass of the loop. It is the last exactly when everything is posted and nothing is outstanding. */
    method Pass(size: nat, from: nat, arrived: seq<bool>, tx: array<nat>, rx: array<nat>, ghost base: seq<seq<Request>>)
      returns (last: bool, posted: nat)
      requires Valid() && tx != rx && QpNum(settings, size) == tx.Length == rx.Length == |arrived|
      requires from <= TotalBlocks(settings, size) && |base| == 2 && Posted(base, size, tx.Length, from)
      requires forall i :: 0 <= i < tx.Length ==> rx[i] == 0 && tx[i] <= MaxOutstanding(settings)
      modifies this`writes, this`receives, this`polled, tx, rx
      ensures Valid() && receives == old(receives) && rx[..] == old(rx[..])
      ensures last <==> from == TotalBlocks(settings, size) && forall i :: 0 <= i < tx.Length ==> old(tx[i]) == 0
      ensures last ==> posted == from && tx[..] == old(tx[..]) && polled == old(polled)
      ensures !last ==> IsPass(settings, size, from, old(tx[..]), arrived, posted, tx[..])
      ensures posted <= TotalBlocks(settings, size) && Posted(base, size, tx.Length, posted)
      ensures forall i :: 0 <= i < tx.Length ==>
                tx[i] + polled[i] == old(tx[i]) + old(polled)[i] + (posted - from) && tx[i] <= MaxOutstanding(settings)
      ensures forall i :: tx.Length <= i < 2 ==> polled[i] == old(polled)[i]
    {
      var q, total, limit := tx.Length, TotalBlocks(settings, size), MaxOutstanding(settings);
      var current := CurrentDepth(q, tx, rx);
      hide TotalBlocks, MaxOutstanding, Posted, MaxDepth, Usable;
      DepthOfPass(tx[..], rx[..], limit);
      hide QpNum;
      ghost var was := tx[..];
      assert forall i :: 0 <= i < q ==> was[i] <= current;
      if from == total && current == 0 {
        return true, from;
      }
      var push := Min(limit - current, total - from);
      PushBlocks(size, from, push, tx, rx, base);
      posted, last := from + push, false;
      hide IsLargest;
      PollCqs(q, arrived, tx, rx);
    }

    /** One call, for any timing of completions. `arrivals[t][i]` says whether a completion is waiting on
        queue pair i in the t-th pass of the loop; the run is cut after the last pass given, so every
        statement here holds at every loop head of every run. */
    method Allreduce(size: nat, arrivals: seq<seq<bool>>) returns (finished: bool, posted: nat, depth: seq<nat>)
      requires Valid()
      requires forall t :: 0 <= t < |arrivals| ==> |arrivals[t]| == QpNum(settings, size)
      modifies this`writes, this`receives, this`polled
      ensures Valid() && receives == old(receives) && posted <= TotalBlocks(settings, size)
      ensures |depth| == QpNum(settings, size)
      ensures Posted(old(writes), size, QpNum(settings, size), posted)
      ensures forall i :: 0 <= i < |depth| ==>
        depth[i] + polled[i] == posted + old(polled)[i] && depth[i] <= MaxOutstanding(settings)
      ensures forall i :: |depth| <= i < 2 ==> polled[i] == old(polled)[i]
      ensures |writes[0]| == |old(writes)[0]| + posted
      ensures |writes[1]| == |old(writes)[1]| + (if Padded(size) >= settings.threshold then posted else 0)
      ensures finished ==> posted == TotalBlocks(settings, size) && forall i :: 0 <= i < |depth| ==> depth[i] == 0
    {
      var q := QpNum(settings, size);
      var tx, rx := new nat[q](_ => 0), new nat[q](_ => 0);
      posted, finished := 0, false;
      var t := 0;
      assert forall i :: 0 <= i < q ==> QpPlan(settings, size, i, 0) == [];
      while t < |arrivals| && !finished
        invariant 0 <= t <= |arrivals| && posted <= TotalBlocks(settings, size)
        invariant Valid() && receives == old(receives) && fresh(tx) && fresh(rx) && tx != rx
        invariant tx.Length == rx.Length == q
        invariant Posted(old(writes), size, q, posted)
        invariant forall i :: 0 <= i < q ==> rx[i] == 0
        invariant forall i :: 0 <= i < q ==>
          tx[i] + polled[i] == posted + old(polled)[i] && tx[i] <= MaxOutstanding(settings)
        invariant forall i :: q <= i < 2 ==> polled[i] == old(polled)[i]
        invariant finished ==> posted == TotalBlocks(settings, size) && forall i :: 0 <= i < q ==> tx[i] == 0
      {
        ghost var zeros := rx[..];
        finished, posted := Pass(size, posted, arrivals[t], tx, rx, old(writes));
        assert forall i :: 0 <= i < q ==> rx[..][i] == zeros[i];
        hide IsPass, Posted;
        t := t + 1;
      }
      depth := tx[..];
    }
  }
}
