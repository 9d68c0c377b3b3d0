/** The multi-turn workload can always be brought to rest without another failure, and then everybody has finished
    all rounds unless a request had failed before. */
module MultiturnProgress {
  import opened Options
  import opened Paths
  import opened Multiturn
  import opened MultiturnInvariant
  import opened MultiturnSafety

  /** The sender may go on exactly while fewer than `maxParallel` requests are outstanding. */
  lemma {:induction false} IdleMaySend(c: Config, s: State)
    requires Reachable(c, s) && s.sender == Idle
    ensures Enabled(c, s, Check) <==> Outstanding(s) < c.maxParallel
  {
    ReachableInv(c, s);
  }

  // ---- Runs without a failure ------------------------------------------------------------------

  predicate Faultless(step: Step)
  {
    !step.Vanish? && !(step.Respond? && step.reply.None?)
  }

  ghost predicate SucceedsNext(c: Config, s: State, s': State)
  {
    exists step :: Faultless(step) && Enabled(c, s, step) && s' == Apply(c, s, step)
  }

  ghost function Succeeding(c: Config): (State, State) -> bool
  {
    (s, s') => SucceedsNext(c, s, s')
  }

  ghost predicate CanSucceed(c: Config, s: State, s': State)
  {
    Reaches(Succeeding(c), s, s')
  }

  function FailedAnswers(answers: seq<Answer>): nat
  {
    if answers == [] then 0
    else (if answers[0].reply == None then 1 else 0) + FailedAnswers(answers[1..])
  }

  lemma {:induction false} FailedAppend(answers: seq<Answer>, a: Answer)
    ensures FailedAnswers(answers + [a]) == FailedAnswers(answers) + (if a.reply == None then 1 else 0)
  {
    if answers == [] {
      assert answers + [a] == [a];
    } else {
      assert (answers + [a])[1..] == answers[1..] + [a];
      FailedAppend(answers[1..], a);
    }
  }

  /** Requests that have failed, whether or not the handler has seen it. */
  function Failures(s: State): nat
  {
    |s.lost| + FailedAnswers(s.answers)
  }

  lemma FaultlessKeepsFailures(c: Config, s: State, step: Step)
    requires Enabled(c, s, step) && Faultless(step)
    ensures Failures(Apply(c, s, step)) == Failures(s)
  {
    if step.Respond? {
      FailedAppend(s.answers, Answer(s.inflight[step.k].client, s.inflight[step.k].text, step.reply));
    }
  }

  lemma SucceedKeeps(c: Config, s: State, s': State)
    requires Inv(c, s) && CanSucceed(c, s, s')
    ensures Inv(c, s') && Failures(s') == Failures(s)
  {
    var inv := (x: State) => Inv(c, x) && Failures(x) == Failures(s);
    hide Inv, Failures, Reaches, Apply, Enabled;
    forall a, b | inv(a) && Succeeding(c)(a, b) ensures inv(b) {
      var step :| Faultless(step) && Enabled(c, a, step) && b == Apply(c, a, step);
      StepKeeps(c, a, step);
      FaultlessKeepsFailures(c, a, step);
    }
    ReachesKeeps(Succeeding(c), inv, s, s');
  }

  // ---- Coming to rest --------------------------------------------------------------------------

  lemma {:induction false} RoundsBound(c: Config, records: seq<Record>)
    requires forall x :: 0 <= x < |records| ==> records[x].round <= c.rounds
    ensures RoundsAll(records) <= |records| * c.rounds
  {
    if records != [] {
      var n := |records| - 1;
      RoundsBound(c, records[..n]);
      OneMoreClient(n, c.rounds);
    }
  }

  lemma CompletedBound(c: Config, s: State)
    requires Inv(c, s)
    ensures s.completed <= c.clients * c.rounds
  {
    hide CountsOk, OnePlaceEach, BarrierOk, ReqsOk, AnswersOk, HandlerOk, RoundsAre;
    RoundsBound(c, s.records);
  }

  function HandlerWork(h: Handler): nat
  {
    match h
    case Waiting => 0
    case Holding(_, _, _) => 1
    case Replying(_) => 5
    case Flushing(reqs) => 5 * |reqs| + 1
  }

  /** How far everything on its way is from the end of its round. */
  function Work(s: State): nat
  {
    4 * |s.ready| + 3 * |s.inflight| + 2 * |s.answers| + HandlerWork(s.handler)
  }

  function SenderWork(sender: Sender): nat
  {
    match sender
    case Launched => 2
    case Idle => 1
    case Permitted => 0
  }

  /** What to do next. */
  function NextStep(s: State): Step
    requires !Quiet(s)
  {
    if s.sender == Launched then Count
    else if s.handler.Holding? then Absorb
    else if s.handler.Replying? then Requeue
    else if s.handler.Flushing? then Release
    else if s.answers != [] then Take
    else if s.inflight != [] then Respond(0, Some(""))
    else if s.sender == Permitted then Launch(0)
    else Check
  }

  lemma NextStepEnabled(c: Config, s: State)
    requires Inv(c, s) && !Quiet(s) && Failures(s) < c.maxParallel
    ensures Enabled(c, s, NextStep(s)) && Faultless(NextStep(s))
  {
    if s.sender != Launched && s.handler.Holding? {
      assert PendingOk(c, s.records, s.handler.client, s.handler.asked);
      if Continues(c, s) { QuestionLeft(c, s); }
    }
    hide PoolOk, RecordsOk, OnePlaceEach, BarrierOk;
  }

  lemma NextStepShrinks(c: Config, s: State)
    requires !Quiet(s) && Enabled(c, s, NextStep(s))
    ensures var s' := Apply(c, s, NextStep(s));
            || s'.completed == s.completed + 1
            || (s'.completed == s.completed && Work(s') < Work(s))
            || (s'.completed == s.completed && Work(s') == Work(s) && SenderWork(s'.sender) < SenderWork(s.sender))
  {
  }

  /** Without another failure everything under way can be finished, as long as the failures so far leave the sender
      room for one request. */
  lemma {:induction false} CanSettle(c: Config, s: State) returns (s': State)
    requires Inv(c, s) && Failures(s) < c.maxParallel
    ensures CanSucceed(c, s, s') && Quiet(s')
    decreases c.clients * c.rounds - s.completed, Work(s), SenderWork(s.sender)
  {
    if Quiet(s) {
      s' := s;
      ReachesSelf(Succeeding(c), s);
    } else {
      var step := NextStep(s);
      NextStepEnabled(c, s);
      NextStepShrinks(c, s);
      CompletedBound(c, s);
      var m := Apply(c, s, step);
      StepKeeps(c, s, step);
      FaultlessKeepsFailures(c, s, step);
      assert SucceedsNext(c, s, m);
      ReachesStep(Succeeding(c), s, m);
      hide Inv, Failures, Apply, Reaches, Quiet;
      s' := CanSettle(c, m);
      ReachesTrans(Succeeding(c), s, m, s');
    }
  }

  /** From every reachable state: everybody can still finish all rounds if and only if no request has failed. */
  lemma {:induction false} EverybodyFinishesIff(c: Config, s: State)
    requires Reachable(c, s) && c.maxParallel >= 1
    ensures Failures(s) == 0 <==>
            exists s' ::
              CanSucceed(c, s, s') && |s'.done| == c.clients && RoundsAre(s'.records, s'.done, c.rounds)
  {
    ReachableInv(c, s);
    if Failures(s) == 0 {
      var s' := CanSettle(c, s);
      SucceedKeeps(c, s, s');
      assert s'.lost == [];
    }
    forall s' | CanSucceed(c, s, s') && |s'.done| == c.clients ensures Failures(s) == 0 {
      SucceedKeeps(c, s, s');
    }
  }
}
