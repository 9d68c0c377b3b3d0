/** The promises of the multi-turn workload generator, in every reachable state. */
module MultiturnSafety {
  import opened Options
  import opened Paths
  import opened Multiturn
  import opened MultiturnInvariant

  /** At most `maxParallel` requests are under way, failed ones included. */
  lemma {:induction false} ParallelIsBounded(c: Config, s: State)
    requires Reachable(c, s)
    ensures |s.inflight| <= Outstanding(s) <= c.maxParallel
  {
    ReachableInv(c, s);
  }

  /** Every client is in exactly one place: queued, under way, answered, being handled, waiting for the
      next round, failed, or done. */
  lemma {:induction false} OnePlacePerClient(c: Config, s: State, x: nat)
    requires Reachable(c, s)
    ensures Places(s, x) == if x < c.clients then 1 else 0
  {
    ReachableInv(c, s);
  }

  /** The question pool is never popped empty. */
  lemma {:induction false} PoolNeverRunsDry(c: Config, s: State)
    requires Reachable(c, s) && s.handler.Holding?
    ensures Enabled(c, s, Absorb)
  {
    ReachableInv(c, s);
    assert PendingOk(c, s.records, s.handler.client, s.handler.asked);
    if Continues(c, s) { QuestionLeft(c, s); }
  }

  /** A client's next request is the text of its previous request, the reply to it, and one new question. */
  lemma {:induction false} PayloadExtends(c: Config, s: State)
    requires Reachable(c, s) && s.handler.Holding? && s.handler.client < |s.records| && Continues(c, s)
    ensures s.pool != [] && NextReq(s).text == s.handler.asked + s.handler.reply + s.pool[|s.pool| - 1]
    ensures var s' := Apply(c, s, Absorb);
            if !c.barrier then s'.handler == Replying(NextReq(s))
            else if |s.nextRound| + 1 < c.clients then s'.nextRound == s.nextRound + [NextReq(s)]
            else s'.handler == Flushing(s.nextRound + [NextReq(s)])
  {
    PoolNeverRunsDry(c, s);
    ReachableInv(c, s);
    assert PendingOk(c, s.records, s.handler.client, s.handler.asked);
  }

  /** The reply to a client's last request closes the conversation. */
  lemma {:induction false} LastReplyCloses(c: Config, s: State)
    requires Reachable(c, s) && s.handler.Holding? && s.handler.client < |s.records| && !Continues(c, s)
    ensures Enabled(c, s, Absorb)
    ensures var (x, s') := (s.handler.client, Apply(c, s, Absorb));
            && s'.records[x].history == s.handler.asked + s.handler.reply && s'.records[x].round == c.rounds
            && s'.done == s.done + [x] && s'.pool == s.pool
  {
    PoolNeverRunsDry(c, s);
    ReachableInv(c, s);
    assert PendingOk(c, s.records, s.handler.client, s.handler.asked);
  }

  /** What is sent to the server is the client's conversation so far. */
  lemma {:induction false} RequestsCarryHistory(c: Config, s: State, i: nat)
    requires Reachable(c, s) && i < |s.inflight|
    ensures s.inflight[i].client < |s.records| && s.inflight[i].text == s.records[s.inflight[i].client].history
    ensures s.records[s.inflight[i].client].round < c.rounds
  {
    ReachableInv(c, s);
    assert PendingOk(c, s.records, s.inflight[i].client, s.inflight[i].text);
  }

  ghost predicate Opened(prompts: seq<string>, s: State)
  {
    |s.records| == |prompts| && forall x :: 0 <= x < |prompts| ==> prompts[x] <= s.records[x].history
  }

  lemma StepKeepsOpened(c: Config, prompts: seq<string>, s: State, step: Step)
    requires Opened(prompts, s) && Enabled(c, s, step)
    ensures Opened(prompts, Apply(c, s, step))
  {
    if step == Absorb {
      var x := s.handler.client;
      assert s.records[x].history <= Absorbed(c, s).records[x].history;
    } else {
      hide Absorbed;
    }
  }

  /** Every conversation begins with its client's prompt, and so does every request. */
  lemma {:induction false} ConversationsBeginWithPrompts(c: Config, prompts: seq<string>, pool: seq<string>, s: State)
    requires Starts(c, prompts, pool) && Reaches(Steps(c), Initial(c, prompts, pool), s)
    ensures Opened(prompts, s)
    ensures forall i :: 0 <= i < |s.inflight| ==>
              s.inflight[i].client < |prompts| && prompts[s.inflight[i].client] <= s.inflight[i].text
  {
    var inv := (x: State) => Opened(prompts, x);
    assert inv(Initial(c, prompts, pool));
    forall a, b | inv(a) && Steps(c)(a, b) ensures inv(b) {
      var step :| Enabled(c, a, step) && b == Apply(c, a, step);
      StepKeepsOpened(c, prompts, a, step);
    }
    ReachesKeeps(Steps(c), inv, Initial(c, prompts, pool), s);
    forall i | 0 <= i < |s.inflight|
      ensures s.inflight[i].client < |prompts| && prompts[s.inflight[i].client] <= s.inflight[i].text
    {
      RequestsCarryHistory(c, s, i);
    }
  }

  lemma {:induction false} TimesFinds(rs: seq<Req>, x: nat) returns (i: nat)
    requires Times(rs, x) > 0
    ensures i < |rs| && rs[i].client == x
  {
    var n := |rs| - 1;
    if rs[n].client == x { i := n; } else { i := TimesFinds(rs[..n], x); }
  }

  lemma {:induction false} AnswerTimesFinds(answers: seq<Answer>, x: nat) returns (i: nat)
    requires AnswerTimes(answers, x) > 0
    ensures i < |answers| && answers[i].client == x
  {
    if answers[0].client == x {
      i := 0;
    } else {
      var j := AnswerTimesFinds(answers[1..], x);
      i := j + 1;
    }
  }

  lemma {:induction false} ListTimesFinds(xs: seq<nat>, x: nat) returns (i: nat)
    requires ListTimes(xs, x) > 0
    ensures i < |xs| && xs[i] == x
  {
    var n := |xs| - 1;
    if xs[n] == x { i := n; } else { i := ListTimesFinds(xs[..n], x); }
  }

  /** Nobody is behind the current turn. */
  lemma NobodyBehind(c: Config, s: State, turn: nat, x: nat)
    requires TurnOk(c, s, turn) && Places(s, x) > 0 && x < |s.records|
    ensures s.records[x].round >= turn
  {
    if Times(s.ready, x) > 0 {
      var i := TimesFinds(s.ready, x);
    } else if Times(s.inflight, x) > 0 {
      var i := TimesFinds(s.inflight, x);
    } else if AnswerTimes(s.answers, x) > 0 {
      var i := AnswerTimesFinds(s.answers, x);
    } else if Times(s.nextRound, x) > 0 {
      var i := TimesFinds(s.nextRound, x);
    } else if ListTimes(s.lost, x) > 0 {
      var i := ListTimesFinds(s.lost, x);
    } else if ListTimes(s.done, x) > 0 {
      var i := ListTimesFinds(s.done, x);
    } else if s.handler.Flushing? {
      var i := TimesFinds(s.handler.reqs, x);
    }
  }

  /** With the round barrier a request of turn i is queued or under way only when every client has
      finished all turns before i. */
  lemma {:induction false} BarrierHolds(c: Config, s: State, r: Req, x: nat)
    requires Reachable(c, s) && c.barrier && (r in s.ready || r in s.inflight) && x < c.clients
    ensures r.client < |s.records| == c.clients && s.records[r.client].round <= s.records[x].round
  {
    ReachableInv(c, s);
    var turn :| TurnOk(c, s, turn);
    assert Places(s, x) == 1;
    hide CountsOk, PoolOk, OnePlaceEach, Places;
    NobodyBehind(c, s, turn, x);
  }

  /** Nothing queued, under way or being handled. */
  predicate Quiet(s: State)
  {
    s.ready == [] && s.inflight == [] && s.answers == [] && s.handler == Waiting
  }

  /** When nothing moves any more, everybody has finished all rounds exactly if no request failed. */
  lemma {:induction false} QuietIsDoneIff(c: Config, s: State)
    requires Reachable(c, s) && Quiet(s)
    ensures |s.done| == c.clients <==> s.lost == []
    ensures s.lost == [] ==> s.nextRound == [] && RoundsAre(s.records, s.done, c.rounds)
  {
    ReachableInv(c, s);
  }

  /** A failed request keeps its place in the window for ever: after `maxParallel` failures nothing is
      under way and the sender's check fails. */
  lemma {:induction false} FailuresCloseWindow(c: Config, s: State)
    requires Reachable(c, s) && |s.lost| >= c.maxParallel
    ensures s.inflight == [] && s.answers == [] && !Enabled(c, s, Check)
    ensures forall step :: Enabled(c, s, step) ==> |Apply(c, s, step).lost| >= |s.lost|
  {
    ReachableInv(c, s);
  }

  // ---- The ready queue -------------------------------------------------------------------------

  datatype Policy = Random | Fifo

  /** The queue both threads use, one at a time. */
  class ReadyQueue {
    const policy: Policy
    var requests: seq<Req>

    constructor (requests: seq<Req>, policy: Policy)
      ensures this.requests == requests && this.policy == policy
    {
      this.requests, this.policy := requests, policy;
    }

    method Append(item: Req)
      modifies this
      ensures requests == old(requests) + [item]
    {
      requests := requests + [item];
    }

    /** Takes one request out, the oldest under first-in first-out; `choice` is the random draw. The effect
        is that of the step `Launch` on the queue. */
    method Pop(choice: nat) returns (item: Option<Req>, ghost i: nat)
      requires requests != [] ==> choice < |requests|
      modifies this
      ensures item.None? <==> old(requests) == []
      ensures item.None? ==> requests == old(requests)
      ensures item.Some? ==>
                i < |old(requests)| && item.value == old(requests)[i] && requests == Without(old(requests), i)
      ensures item.Some? && policy == Fifo ==> i == 0
    {
      if requests == [] { return None, 0; }
      var index := if policy == Random then choice else 0;
      i := index;
      item := Some(requests[index]);
      requests := requests[..index] + requests[index + 1..];
    }
  }
}
