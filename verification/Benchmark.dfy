/** The benchmark's round loop: posting under a depth limit, and the receives that match the messages. */
module Benchmark {
  import opened Powers
  import opened RdmaGroup

  const Q_SIZE: nat := 128

  datatype Collective = Reduce | Allreduce | Broadcast

  datatype Opcode = Send | Write | WriteImm

  /** `limit` is the depth no queue may exceed; `rank` decides between sender and receiver. */
  datatype Bench =
    Bench(qps: nat, useSend: bool, collective: Collective, rank: nat, serverWindow: nat, messageSize: nat)

  predicate Usable(b: Bench)
  {
    b.qps >= 1 && b.messageSize > 0
  }

  function Role(b: Bench): TxRxType
  {
    match b.collective
    case Reduce => if b.rank == 0 then Rx else Tx
    case Allreduce => TxRx
    case Broadcast => if b.rank == 0 then Tx else Rx
  }

  function Limit(b: Bench): nat
    requires Usable(b)
  {
    var window := b.serverWindow / b.messageSize;
    if b.collective != Broadcast && window < Q_SIZE then window else Q_SIZE
  }

  /** Whether the last message of a round tells the receiver. */
  predicate Notifies(b: Bench)
  {
    b.collective != Allreduce
  }

  /** The j-th of `total` messages on any queue pair. */
  function Message(b: Bench, total: nat, j: nat): Opcode
  {
    if b.useSend then Send else if Notifies(b) && j == total - 1 then WriteImm else Write
  }

  function Messages(b: Bench, total: nat, k: nat): seq<Opcode>
  {
    seq(k, (j: nat) => Message(b, total, j))
  }

  /** What this side has sent on a queue pair when it has posted k of `total` messages. */
  function Sent(b: Bench, total: nat, k: nat): seq<Opcode>
  {
    if Role(b) == Rx then [] else Messages(b, total, k)
  }

  /** How many receives this side has posted on a queue pair by then. */
  function Credits(b: Bench, total: nat, k: nat): nat
  {
    if Role(b) == Tx then 0
    else if b.useSend then k
    else if Notifies(b) && k == total && total > 0 then 1
    else 0
  }

  /** Data flows to rank 0 in reduce, from rank 0 in broadcast, and both ways in allreduce. */
  predicate Gives(b: Bench)
  {
    b.collective == Allreduce || (b.collective == Reduce) == (b.rank != 0)
  }

  predicate Takes(b: Bench)
  {
    b.collective == Allreduce || (b.collective == Reduce) == (b.rank == 0)
  }

  /** A round on one queue pair, seen from outside. A rank that gives has sent every message, by SEND or else by
      WRITE with the last one announced in reduce and broadcast, and no other rank has sent any; a rank that takes
      has posted a receive for every SEND or announcement, and no other rank any; and all of it has completed. */
  ghost predicate Exchanged(b: Bench, total: nat, q: Qp)
  {
    && |q.sends| == (if Gives(b) then total else 0)
    && (forall j :: 0 <= j < |q.sends| ==>
          && (q.sends[j] == Send <==> b.useSend)
          && (q.sends[j] == WriteImm <==> !b.useSend && b.collective != Allreduce && j == total - 1))
    && q.receives == (if !Takes(b) then 0 else if b.useSend then total
                      else if b.collective == Allreduce || total == 0 then 0 else 1)
    && q.txPolled == |q.sends| && q.rxPolled == q.receives
  }

  lemma RoundIsExchange(b: Bench, total: nat, q: Qp)
    requires Usable(b) && At(b, q, total, total) && q.tx == 0 && q.rx == 0
    ensures Exchanged(b, total, q)
  {
  }

  /** No more is outstanding than the queue holds and, where packets are aggregated, than the server window holds;
      and no larger limit would do. */
  lemma LimitIsLargest(b: Bench, depth: nat)
    requires Usable(b)
    ensures depth <= Limit(b) <==>
            depth <= Q_SIZE && (b.collective != Broadcast ==> depth * b.messageSize <= b.serverWindow)
  {
    if b.collective != Broadcast { Quotient(b.serverWindow, b.messageSize, depth); }
  }

  /** Messages that use up a receive at the other end. */
  function Consuming(ops: seq<Opcode>): nat
  {
    if ops == [] then 0
    else Consuming(ops[..|ops| - 1]) + (if ops[|ops| - 1] == Write then 0 else 1)
  }

  /** Two sides of one run: the same benchmark, seen from two ranks. */
  predicate SameRun(a: Bench, b: Bench)
  {
    b == a.(rank := b.rank)
  }

  lemma {:induction false} ConsumingMessages(b: Bench, total: nat, k: nat)
    requires k <= total
    ensures Consuming(Messages(b, total, k)) ==
            if b.useSend then k else if Notifies(b) && k == total && total > 0 then 1 else 0
  {
    if k > 0 {
      ConsumingMessages(b, total, k - 1);
      assert Messages(b, total, k)[..k - 1] == Messages(b, total, k - 1);
    }
  }

  /** For any sender and any receiver of a round, the receives posted per queue pair equal the messages
      that use one up: all of them for SEND, exactly the notification for WRITE in reduce and broadcast,
      none for WRITE in allreduce. */
  lemma {:induction false} CreditsMatchMessages(sender: Bench, receiver: Bench, total: nat)
    requires SameRun(sender, receiver) && Gives(sender) && Takes(receiver)
    ensures Consuming(Sent(sender, total, total)) == Credits(receiver, total, total)
    ensures Credits(receiver, total, total) ==
            if sender.useSend then total else if sender.collective == Allreduce || total == 0 then 0 else 1
  {
    ConsumingMessages(sender, total, total);
  }

  /** What the adapter was asked to do on one queue pair in the current round, the completions taken, and
      the two depths. */
  datatype Qp = Qp(sends: seq<Opcode>, receives: nat, txPolled: nat, rxPolled: nat, tx: nat, rx: nat)

  /** A queue pair when k of `total` messages have been posted on it. */
  predicate At(b: Bench, q: Qp, total: nat, k: nat)
    requires Usable(b)
  {
    && q.sends == Sent(b, total, k) && q.receives == Credits(b, total, k)
    && q.tx + q.txPolled == |q.sends| && q.rx + q.rxPolled == q.receives
    && q.tx <= Limit(b) && q.rx <= Limit(b)
  }

  predicate AllAt(b: Bench, qps: seq<Qp>, total: nat, k: nat)
  {
    Usable(b) && |qps| == b.qps && forall i :: 0 <= i < |qps| ==> At(b, qps[i], total, k)
  }

  function Least(a: nat, b: nat): nat
  {
    if a < b then a else b
  }

  /** A receive if this side expects a message that uses one, then the message. */
  function AfterPost(b: Bench, q: Qp, notify: bool): Qp
  {
    var p := if Role(b) != Tx && (b.useSend || notify) then q.(receives := q.receives + 1, rx := q.rx + 1) else q;
    if Role(b) == Rx then p
    else p.(sends := p.sends + [if b.useSend then Send else if notify then WriteImm else Write], tx := p.tx + 1)
  }

  lemma PostAdvances(b: Bench, q: Qp, total: nat, k: nat)
    requires Usable(b) && k < total && At(b, q, total, k) && q.tx < Limit(b) && q.rx < Limit(b)
    ensures At(b, AfterPost(b, q, Notifies(b) && k + 1 == total), total, k + 1)
  {
    assert Messages(b, total, k + 1) == Messages(b, total, k) + [Message(b, total, k)];
  }

  function DepthsTx(qps: seq<Qp>): seq<nat>
  {
    seq(|qps|, i requires 0 <= i < |qps| => qps[i].tx)
  }

  function DepthsRx(qps: seq<Qp>): seq<nat>
  {
    seq(|qps|, i requires 0 <= i < |qps| => qps[i].rx)
  }

  lemma DepthBound(b: Bench, qps: seq<Qp>, total: nat, k: nat)
    requires AllAt(b, qps, total, k)
    ensures var depth := MaxDepth(DepthsTx(qps), DepthsRx(qps), |qps|);
            depth <= Limit(b) && forall i :: 0 <= i < |qps| ==> qps[i].tx <= depth && qps[i].rx <= depth
  {
    var tx, rx := DepthsTx(qps), DepthsRx(qps);
    forall i | 0 <= i < |qps|
      ensures tx[i] == qps[i].tx <= MaxDepth(tx, rx, |qps|) && rx[i] == qps[i].rx <= MaxDepth(tx, rx, |qps|)
    {
      MaxDepthIsUpperBound(tx, rx, |qps|, i);
    }
    forall i | 0 <= i < |qps| ensures tx[i] <= Limit(b) && rx[i] <= Limit(b) { assert At(b, qps[i], total, k); }
    MaxDepthIsLeast(tx, rx, |qps|, Limit(b));
  }

  lemma NoDepth(qps: seq<Qp>)
    requires forall i :: 0 <= i < |qps| ==> qps[i].tx == 0 && qps[i].rx == 0
    ensures MaxDepth(DepthsTx(qps), DepthsRx(qps), |qps|) == 0
  {
    MaxDepthIsLeast(DepthsTx(qps), DepthsRx(qps), |qps|, 0);
  }

  lemma RoundInLimit(b: Bench, qps: seq<Qp>, total: nat, k: nat)
    requires AllAt(b, qps, total, k)
    ensures forall i :: 0 <= i < |qps| ==> qps[i].tx <= Q_SIZE && qps[i].rx <= Q_SIZE
    ensures b.collective != Broadcast ==>
              forall i :: 0 <= i < |qps| ==> qps[i].tx * b.messageSize <= b.serverWindow
  {
    hide Limit;
    forall i | 0 <= i < |qps|
      ensures qps[i].tx <= Q_SIZE && qps[i].rx <= Q_SIZE
      ensures b.collective != Broadcast ==> qps[i].tx * b.messageSize <= b.serverWindow
    {
      assert At(b, qps[i], total, k);
      LimitIsLargest(b, qps[i].tx);
      LimitIsLargest(b, qps[i].rx);
    }
  }

  class Runner {
    const bench: Bench
    var qps: seq<Qp>

    constructor (bench: Bench)
      requires Usable(bench)
      ensures this.bench == bench && |qps| == bench.qps
    {
      this.bench := bench;
      qps := seq(bench.qps, _ => Qp([], 0, 0, 0, 0, 0));
    }

    method PostMessage(i: nat, notify: bool)
      requires i < |qps|
      modifies this
      ensures qps == old(qps)[i := AfterPost(bench, old(qps)[i], notify)]
    {
      var q := qps[i];
      if Role(bench) != Tx && (bench.useSend || notify) {
        q := q.(receives := q.receives + 1, rx := q.rx + 1);
      }
      if Role(bench) != Rx {
        var op := if bench.useSend then Send else if notify then WriteImm else Write;
        q := q.(sends := q.sends + [op], tx := q.tx + 1);
      }
      qps := qps[i := q];
    }

    /** Up to Q_SIZE completions of each kind; `waiting` says how many there are. */
    method Poll(i: nat, waiting: (nat, nat))
      requires i < |qps|
      modifies this
      ensures |qps| == |old(qps)| && qps == old(qps)[i := qps[i]]
      ensures var (p, q) := (old(qps)[i], qps[i]);
              && q.sends == p.sends && q.receives == p.receives
              && q.tx + q.txPolled == p.tx + p.txPolled && q.rx + q.rxPolled == p.rx + p.rxPolled
              && q.rxPolled == p.rxPolled + Least(Least(waiting.0, Q_SIZE), p.rx)
              && q.txPolled == p.txPolled + Least(Least(waiting.1, Q_SIZE), p.tx)
    {
      var q := qps[i];
      var r := Least(Least(waiting.0, Q_SIZE), q.rx);
      q := q.(rx := q.rx - r, rxPolled := q.rxPolled + r);
      var t := Least(Least(waiting.1, Q_SIZE), q.tx);
      q := q.(tx := q.tx - t, txPolled := q.txPolled + t);
      qps := qps[i := q];
    }

    /** `count` more messages on queue pair i, the last of them with a notification if the round ends here. */
    method PushQp(i: nat, total: nat, from: nat, count: nat, waiting: (nat, nat))
      requires Usable(bench) && i < |qps| && from + count <= total && At(bench, qps[i], total, from)
      requires qps[i].tx + count <= Limit(bench) && qps[i].rx + count <= Limit(bench)
      modifies this
      ensures |qps| == |old(qps)| && qps == old(qps)[i := qps[i]] && At(bench, qps[i], total, from + count)
    {
      var last := Notifies(bench) && from + count == total;
      for k := 0 to count
        invariant |qps| == |old(qps)| && qps == old(qps)[i := qps[i]] && At(bench, qps[i], total, from + k)
        invariant qps[i].tx <= old(qps)[i].tx + k && qps[i].rx <= old(qps)[i].rx + k
      {
        hide At;
        PostAdvances(bench, qps[i], total, from + k);
        PostMessage(i, last && k == count - 1);
      }
      Poll(i, waiting);
    }

    /** One round, for any timing of completions: `arrivals[t][i]` are the completions waiting on queue
        pair i in the t-th pass. The run is cut after the last pass given, so this holds at every loop
        head of every run: each queue pair has been given the same messages and receives, which depend on
        the number posted alone, and no queue is deeper than the limit. */
    method Round(total: nat, arrivals: seq<seq<(nat, nat)>>) returns (finished: bool, posted: nat)
      requires Usable(bench) && forall t :: 0 <= t < |arrivals| ==> |arrivals[t]| == bench.qps
      modifies this
      ensures posted <= total && AllAt(bench, qps, total, posted)
      ensures finished ==> posted == total && forall i :: 0 <= i < |qps| ==> Exchanged(bench, total, qps[i])
      ensures forall i :: 0 <= i < |qps| ==> qps[i].tx <= Q_SIZE && qps[i].rx <= Q_SIZE
      ensures bench.collective != Broadcast ==>
                forall i :: 0 <= i < |qps| ==> qps[i].tx * bench.messageSize <= bench.serverWindow
      ensures arrivals != [] ==> posted >= Least(Limit(bench), total)
    {
      qps := seq(bench.qps, _ => Qp([], 0, 0, 0, 0, 0));
      posted, finished := 0, false;
      for t := 0 to |arrivals|
        invariant !finished && posted <= total && AllAt(bench, qps, total, posted)
        invariant if t == 0 then posted == 0 && forall i :: 0 <= i < |qps| ==> qps[i].tx == 0 && qps[i].rx == 0
                  else posted >= Least(Limit(bench), total)
      {
        hide At, Limit;
        var depth := MaxDepth(DepthsTx(qps), DepthsRx(qps), |qps|);
        DepthBound(bench, qps, total, posted);
        if t == 0 { NoDepth(qps); }
        if posted == total && depth == 0 {
          ghost var b, done := bench, qps;
          hide Exchanged;
          forall i | 0 <= i < |done| ensures Exchanged(b, total, done[i]) { RoundIsExchange(b, total, done[i]); }
          RoundInLimit(b, done, total, posted);
          return true, posted;
        }
        var count := Least(Limit(bench) - depth, total - posted);
        for i := 0 to bench.qps
          invariant |qps| == bench.qps
          invariant forall j :: 0 <= j < i ==> At(bench, qps[j], total, posted + count)
          invariant forall j :: i <= j < bench.qps ==>
            At(bench, qps[j], total, posted) && qps[j].tx <= depth && qps[j].rx <= depth
        {
          PushQp(i, total, posted, count, arrivals[t][i]);
        }
        posted := posted + count;
      }
      RoundInLimit(bench, qps, total, posted);
    }
  }
}
