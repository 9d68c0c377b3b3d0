/** What every interleaving of the workload generator keeps. */
module MultiturnInvariant {
  import opened Paths
  import opened Multiturn

  // ---- Counters --------------------------------------------------------------------------------

  function HandlerSize(h: Handler): nat
  {
    match h
    case Waiting => 0
    case Holding(_, _, _) => 1
    case Replying(_) => 1
    case Flushing(reqs) => |reqs|
  }

  /** Requests sent and not yet counted as completed; a failed one stays counted. */
  function Outstanding(s: State): nat
  {
    |s.inflight| + |s.answers| + (if s.handler.Holding? then 1 else 0) + |s.lost|
  }

  ghost predicate CountsOk(c: Config, s: State)
  {
    && s.sent + (if s.sender == Launched then 1 else 0) == s.completed + Outstanding(s)
    && s.sent + (if s.sender == Idle then 0 else 1) <= s.completed + c.maxParallel
    && c.clients ==
       |s.ready| + |s.inflight| + |s.answers| + HandlerSize(s.handler) + |s.nextRound| + |s.lost| + |s.done|
    && (|s.nextRound| == 0 || |s.nextRound| < c.clients)
    && (!c.barrier ==> s.nextRound == [] && !s.handler.Flushing?)
  }

  lemma CountsKeep(c: Config, s: State, step: Step)
    requires CountsOk(c, s) && Enabled(c, s, step)
    ensures CountsOk(c, Apply(c, s, step))
  {
    if step == Absorb {
      AbsorbKeepsCounts(c, s);
    } else if step.Take? || step.Requeue? || step.Release? {
      HandlerKeepsCounts(c, s, step);
    } else {
      SenderKeepsCounts(c, s, step);
    }
  }

  lemma HandlerKeepsCounts(c: Config, s: State, step: Step)
    requires CountsOk(c, s) && Enabled(c, s, step) && (step.Take? || step.Requeue? || step.Release?)
    ensures CountsOk(c, Apply(c, s, step))
  {
    hide Absorbed, Without;
  }

  lemma SenderKeepsCounts(c: Config, s: State, step: Step)
    requires CountsOk(c, s) && Enabled(c, s, step)
    requires step != Absorb && !step.Take? && !step.Requeue? && !step.Release?
    ensures CountsOk(c, Apply(c, s, step))
  {
    hide Absorbed, Without;
  }

  lemma AbsorbKeepsCounts(c: Config, s: State)
    requires CountsOk(c, s) && Enabled(c, s, Absorb)
    ensures CountsOk(c, Absorbed(c, s))
  {
  }

  // ---- Conversations ---------------------------------------------------------------------------

  /** A pending request carries its client's whole conversation, and the client has rounds to go. */
  ghost predicate PendingOk(c: Config, records: seq<Record>, x: nat, text: string)
  {
    x < |records| && text == records[x].history && records[x].round < c.rounds
  }

  ghost predicate ReqsOk(c: Config, records: seq<Record>, rs: seq<Req>)
  {
    forall i :: 0 <= i < |rs| ==> PendingOk(c, records, rs[i].client, rs[i].text)
  }

  ghost predicate AnswersOk(c: Config, records: seq<Record>, answers: seq<Answer>)
  {
    forall i :: 0 <= i < |answers| ==> PendingOk(c, records, answers[i].client, answers[i].asked)
  }

  ghost predicate HandlerOk(c: Config, records: seq<Record>, h: Handler)
  {
    match h
    case Waiting => true
    case Holding(x, asked, _) => PendingOk(c, records, x, asked)
    case Replying(req) => PendingOk(c, records, req.client, req.text)
    case Flushing(reqs) => ReqsOk(c, records, reqs)
  }

  ghost predicate RoundsAre(records: seq<Record>, xs: seq<nat>, round: nat)
  {
    forall i :: 0 <= i < |xs| ==> xs[i] < |records| && records[xs[i]].round == round
  }

  ghost predicate RecordsOk(c: Config, s: State)
  {
    && |s.records| == c.clients && (forall x :: 0 <= x < |s.records| ==> s.records[x].round <= c.rounds)
    && ReqsOk(c, s.records, s.ready) && ReqsOk(c, s.records, s.inflight) && ReqsOk(c, s.records, s.nextRound)
    && AnswersOk(c, s.records, s.answers) && HandlerOk(c, s.records, s.handler)
    && RoundsAre(s.records, s.done, c.rounds)
  }

  lemma ReqsStay(c: Config, records: seq<Record>, rs: seq<Req>, x: nat, r: Record)
    requires ReqsOk(c, records, rs) && x < |records| && Times(rs, x) == 0
    ensures ReqsOk(c, records[x := r], rs)
  {
    forall i | 0 <= i < |rs| ensures PendingOk(c, records[x := r], rs[i].client, rs[i].text) {
      TimesWithout(rs, i, x);
      assert PendingOk(c, records, rs[i].client, rs[i].text);
    }
  }

  lemma AnswersStay(c: Config, records: seq<Record>, answers: seq<Answer>, x: nat, r: Record)
    requires AnswersOk(c, records, answers) && x < |records| && AnswerTimes(answers, x) == 0
    ensures AnswersOk(c, records[x := r], answers)
  {
    forall i | 0 <= i < |answers| ensures PendingOk(c, records[x := r], answers[i].client, answers[i].asked) {
      AnswerTimesHas(answers, i);
      assert PendingOk(c, records, answers[i].client, answers[i].asked);
    }
  }

  lemma ListStays(records: seq<Record>, xs: seq<nat>, round: nat, x: nat, r: Record)
    requires RoundsAre(records, xs, round) && x < |records| && ListTimes(xs, x) == 0
    ensures RoundsAre(records[x := r], xs, round)
  {
    forall i | 0 <= i < |xs| ensures records[x := r][xs[i]].round == round { ListTimesHas(xs, i); }
  }

  ghost predicate OnePlaceEach(c: Config, s: State)
  {
    forall x: nat :: Places(s, x) == if x < c.clients then 1 else 0
  }

  lemma MovesKeepRecords(c: Config, s: State, step: Step)
    requires RecordsOk(c, s) && Enabled(c, s, step) && step != Absorb
    ensures RecordsOk(c, Apply(c, s, step))
  {
    hide PendingOk;
  }

  lemma AbsorbKeepsRecords(c: Config, s: State)
    requires RecordsOk(c, s) && OnePlaceEach(c, s) && Enabled(c, s, Absorb)
    ensures RecordsOk(c, Absorbed(c, s))
  {
    var x, s' := s.handler.client, Absorbed(c, s);
    var r := s'.records[x];
    assert Places(s, x) <= 1;
    assert PendingOk(c, s.records, x, s.handler.asked);
    assert Continues(c, s) ==> PendingOk(c, s'.records, x, NextReq(s).text);
    hide PendingOk, Times, AnswerTimes, ListTimes, ReqsOk, AnswersOk, RoundsAre;
    ReqsStay(c, s.records, s.ready, x, r);
    ReqsStay(c, s.records, s.inflight, x, r);
    ReqsStay(c, s.records, s.nextRound, x, r);
    AnswersStay(c, s.records, s.answers, x, r);
    ListStays(s.records, s.done, c.rounds, x, r);
    if Continues(c, s) {
      ReqsAppend(c, s'.records, s.nextRound, NextReq(s));
      ReqsNone(c, s'.records);
    } else {
      ListAppend(s'.records, s.done, c.rounds, x);
    }
  }

  lemma ReqsAppend(c: Config, records: seq<Record>, rs: seq<Req>, req: Req)
    requires ReqsOk(c, records, rs) && PendingOk(c, records, req.client, req.text)
    ensures ReqsOk(c, records, rs + [req])
  {
  }

  lemma ReqsNone(c: Config, records: seq<Record>)
    ensures ReqsOk(c, records, [])
  {
  }

  lemma ListAppend(records: seq<Record>, xs: seq<nat>, round: nat, x: nat)
    requires RoundsAre(records, xs, round) && x < |records| && records[x].round == round
    ensures RoundsAre(records, xs + [x], round)
  {
  }

  // ---- The pool of questions -------------------------------------------------------------------

  function Max(a: int, b: int): int
  {
    if a < b then b else a
  }

  /** Questions a client has been given: one per finished round but the last. */
  function Asked(c: Config, r: Record): nat
    requires c.rounds >= 1
  {
    if r.round < c.rounds then r.round else c.rounds - 1
  }

  function AskedAll(c: Config, records: seq<Record>): nat
    requires c.rounds >= 1
  {
    if records == [] then 0 else AskedAll(c, records[..|records| - 1]) + Asked(c, records[|records| - 1])
  }

  function RoundsAll(records: seq<Record>): nat
  {
    if records == [] then 0 else RoundsAll(records[..|records| - 1]) + records[|records| - 1].round
  }

  lemma {:induction false} AskedUpdate(c: Config, records: seq<Record>, x: nat, r: Record)
    requires c.rounds >= 1 && x < |records|
    ensures AskedAll(c, records[x := r]) + Asked(c, records[x]) == AskedAll(c, records) + Asked(c, r)
    ensures RoundsAll(records[x := r]) + records[x].round == RoundsAll(records) + r.round
  {
    var n := |records| - 1;
    if x < n {
      AskedUpdate(c, records[..n], x, r);
      assert records[x := r][..n] == records[..n][x := r];
    } else {
      assert records[x := r][..n] == records[..n];
    }
  }

  lemma OneMoreClient(n: nat, rounds: nat)
    ensures (n + 1) * rounds == n * rounds + rounds
  {
  }

  lemma {:induction false} AskedBound(c: Config, records: seq<Record>)
    requires c.rounds >= 1
    ensures AskedAll(c, records) <= |records| * (c.rounds - 1)
  {
    if records != [] {
      var n := |records| - 1;
      AskedBound(c, records[..n]);
      OneMoreClient(n, c.rounds - 1);
    }
  }

  ghost predicate PoolOk(c: Config, s: State)
  {
    && c.rounds >= 1 && |s.records| == c.clients
    && |s.pool| + AskedAll(c, s.records) == c.clients * Max(c.rounds - 1, 1)
    && s.completed == RoundsAll(s.records)
  }

  /** When a client has another round to go there is a question left. */
  lemma {:induction false} QuestionLeft(c: Config, s: State)
    requires PoolOk(c, s) && s.handler.Holding? && s.handler.client < |s.records| && Continues(c, s)
    ensures s.pool != []
  {
    var x := s.handler.client;
    AskedUpdate(c, s.records, x, Record(c.rounds, ""));
    AskedBound(c, s.records[x := Record(c.rounds, "")]);
  }

  lemma PoolKeeps(c: Config, s: State, step: Step)
    requires PoolOk(c, s) && RecordsOk(c, s) && Enabled(c, s, step)
    ensures PoolOk(c, Apply(c, s, step))
  {
    if step == Absorb {
      var x := s.handler.client;
      assert PendingOk(c, s.records, x, s.handler.asked);
      AskedUpdate(c, s.records, x, Absorbed(c, s).records[x]);
    }
  }

  // ---- The round barrier -----------------------------------------------------------------------

  ghost predicate ReqRounds(records: seq<Record>, rs: seq<Req>, round: nat)
  {
    forall i :: 0 <= i < |rs| ==> rs[i].client < |records| && records[rs[i].client].round == round
  }

  ghost predicate AnswerRounds(records: seq<Record>, answers: seq<Answer>, round: nat)
  {
    forall i :: 0 <= i < |answers| ==> answers[i].client < |records| && records[answers[i].client].round == round
  }

  ghost predicate HandlerRound(records: seq<Record>, h: Handler, round: nat)
  {
    match h
    case Waiting => true
    case Holding(x, _, _) => x < |records| && records[x].round == round
    case Replying(_) => false
    case Flushing(reqs) => ReqRounds(records, reqs, round)
  }

  /** Everybody is at the current turn, but those who wait for the next one or are done. */
  ghost predicate TurnOk(c: Config, s: State, turn: nat)
  {
    && ReqRounds(s.records, s.ready, turn) && ReqRounds(s.records, s.inflight, turn)
    && AnswerRounds(s.records, s.answers, turn)
    && HandlerRound(s.records, s.handler, turn) && RoundsAre(s.records, s.lost, turn)
    && ReqRounds(s.records, s.nextRound, turn + 1) && (s.nextRound != [] ==> turn + 1 < c.rounds)
    && RoundsAre(s.records, s.done, turn + 1) && (s.done != [] ==> turn + 1 == c.rounds)
  }

  ghost predicate BarrierOk(c: Config, s: State)
  {
    c.barrier ==> exists turn :: TurnOk(c, s, turn)
  }

  lemma MovesKeepTurn(c: Config, s: State, step: Step, turn: nat)
    requires TurnOk(c, s, turn) && Enabled(c, s, step) && step != Absorb
    ensures TurnOk(c, Apply(c, s, step), turn)
  {
    match step
    case Launch(i) =>
      ReqRoundsWithout(s.records, s.ready, turn, i);
      ReqRoundsAppend(s.records, s.inflight, turn, s.ready[i]);
      hide *;
    case Respond(k, reply) =>
      AnswerRoundsAppend(s.records, s.answers, turn, Answer(s.inflight[k].client, s.inflight[k].text, reply));
      ReqRoundsWithout(s.records, s.inflight, turn, k);
      hide ReqRounds, AnswerRounds, RoundsAre;
    case Vanish(k) =>
      RoundsAppend(s.records, s.lost, turn, s.inflight[k].client);
      ReqRoundsWithout(s.records, s.inflight, turn, k);
      hide ReqRounds, AnswerRounds, RoundsAre;
    case Take =>
      RoundsAppend(s.records, s.lost, turn, s.answers[0].client);
      AnswerRoundsRest(s.records, s.answers, turn);
      hide ReqRounds, AnswerRounds, RoundsAre;
    case Release =>
      if s.handler.reqs != [] {
        ReqRoundsAppend(s.records, s.ready, turn, s.handler.reqs[0]);
        ReqRoundsRest(s.records, s.handler.reqs, turn);
      }
      hide ReqRounds, AnswerRounds, RoundsAre;
    case _ => hide ReqRounds, AnswerRounds, RoundsAre;
  }

  lemma ReqRoundsWithout(records: seq<Record>, rs: seq<Req>, round: nat, i: nat)
    requires ReqRounds(records, rs, round) && i < |rs|
    ensures ReqRounds(records, Without(rs, i), round)
  {
  }

  lemma ReqRoundsRest(records: seq<Record>, rs: seq<Req>, round: nat)
    requires ReqRounds(records, rs, round) && rs != []
    ensures ReqRounds(records, rs[1..], round)
  {
  }

  lemma AnswerRoundsRest(records: seq<Record>, answers: seq<Answer>, round: nat)
    requires AnswerRounds(records, answers, round) && answers != []
    ensures AnswerRounds(records, answers[1..], round)
  {
  }

  lemma AnswerRoundsAppend(records: seq<Record>, answers: seq<Answer>, round: nat, answer: Answer)
    requires AnswerRounds(records, answers, round) && answer.client < |records| && records[answer.client].round == round
    ensures AnswerRounds(records, answers + [answer], round)
  {
  }

  lemma RoundsAppend(records: seq<Record>, xs: seq<nat>, round: nat, x: nat)
    requires RoundsAre(records, xs, round) && x < |records| && records[x].round == round
    ensures RoundsAre(records, xs + [x], round)
  {
  }

  lemma ReqRoundsStay(records: seq<Record>, rs: seq<Req>, round: nat, x: nat, r: Record)
    requires ReqRounds(records, rs, round) && x < |records| && Times(rs, x) == 0
    ensures ReqRounds(records[x := r], rs, round)
  {
    forall i | 0 <= i < |rs| ensures records[x := r][rs[i].client].round == round { TimesWithout(rs, i, x); }
  }

  lemma AnswerRoundsStay(records: seq<Record>, answers: seq<Answer>, round: nat, x: nat, r: Record)
    requires AnswerRounds(records, answers, round) && x < |records| && AnswerTimes(answers, x) == 0
    ensures AnswerRounds(records[x := r], answers, round)
  {
    forall i | 0 <= i < |answers| ensures records[x := r][answers[i].client].round == round {
      AnswerTimesHas(answers, i);
    }
  }

  lemma ReqRoundsAppend(records: seq<Record>, rs: seq<Req>, round: nat, req: Req)
    requires ReqRounds(records, rs, round) && req.client < |records| && records[req.client].round == round
    ensures ReqRounds(records, rs + [req], round)
  {
  }

  /** The last client to finish a turn releases the next one: nobody is anywhere else. */
  lemma AbsorbEndsTurn(c: Config, s: State, turn: nat)
    requires c.barrier && TurnOk(c, s, turn) && CountsOk(c, s) && Enabled(c, s, Absorb)
    requires Continues(c, s) && |s.nextRound| + 1 == c.clients && Times(s.nextRound, s.handler.client) == 0
    ensures TurnOk(c, Absorbed(c, s), turn + 1)
  {
    var x, s' := s.handler.client, Absorbed(c, s);
    assert s.ready == [] && s.inflight == [] && s.answers == [] && s.lost == [] && s.done == [];
    ReqRoundsStay(s.records, s.nextRound, turn + 1, x, s'.records[x]);
    ReqRoundsAppend(s'.records, s.nextRound, turn + 1, NextReq(s));
    hide Times, CountsOk;
  }

  /** The other places do not notice that x moves on. */
  lemma OthersStay(s: State, x: nat, r: Record, turn: nat, c: Config)
    requires TurnOk(c, s, turn) && x < |s.records| && Places(s, x) <= HandlerTimes(s.handler, x)
    ensures var records := s.records[x := r];
            && ReqRounds(records, s.ready, turn) && ReqRounds(records, s.inflight, turn)
            && AnswerRounds(records, s.answers, turn)
            && RoundsAre(records, s.lost, turn) && ReqRounds(records, s.nextRound, turn + 1)
            && RoundsAre(records, s.done, turn + 1)
  {
    hide Times, AnswerTimes, ListTimes, ReqRounds, AnswerRounds, RoundsAre, HandlerTimes;
    ReqRoundsStay(s.records, s.ready, turn, x, r);
    ReqRoundsStay(s.records, s.inflight, turn, x, r);
    AnswerRoundsStay(s.records, s.answers, turn, x, r);
    ListStays(s.records, s.lost, turn, x, r);
    ReqRoundsStay(s.records, s.nextRound, turn + 1, x, r);
    ListStays(s.records, s.done, turn + 1, x, r);
  }

  lemma AbsorbWithinTurn(c: Config, s: State, turn: nat)
    requires c.barrier && TurnOk(c, s, turn) && Enabled(c, s, Absorb) && Places(s, s.handler.client) <= 1
    requires s.records[s.handler.client].round < c.rounds && !(Continues(c, s) && |s.nextRound| + 1 == c.clients)
    ensures TurnOk(c, Absorbed(c, s), turn)
  {
    var x, s' := s.handler.client, Absorbed(c, s);
    hide Places, ReqRounds, AnswerRounds, RoundsAre;
    OthersStay(s, x, s'.records[x], turn, c);
    if Continues(c, s) {
      ReqRoundsAppend(s'.records, s.nextRound, turn + 1, NextReq(s));
    } else {
      ListAppend(s'.records, s.done, turn + 1, x);
    }
  }

  lemma AbsorbKeepsTurn(c: Config, s: State, turn: nat)
    requires c.barrier && TurnOk(c, s, turn) && CountsOk(c, s) && RecordsOk(c, s) && OnePlaceEach(c, s)
    requires Enabled(c, s, Absorb)
    ensures TurnOk(c, Absorbed(c, s), turn) || TurnOk(c, Absorbed(c, s), turn + 1)
  {
    assert Places(s, s.handler.client) <= 1;
    assert PendingOk(c, s.records, s.handler.client, s.handler.asked);
    hide TurnOk, CountsOk, RecordsOk, OnePlaceEach, Absorbed, Times, AnswerTimes, ListTimes;
    if Continues(c, s) && |s.nextRound| + 1 == c.clients {
      AbsorbEndsTurn(c, s, turn);
    } else {
      AbsorbWithinTurn(c, s, turn);
    }
  }

  // ---- All of it -------------------------------------------------------------------------------

  ghost predicate Inv(c: Config, s: State)
  {
    OnePlaceEach(c, s) && CountsOk(c, s) && RecordsOk(c, s) && PoolOk(c, s) && BarrierOk(c, s)
  }

  lemma {:induction false} StepKeeps(c: Config, s: State, step: Step)
    requires Inv(c, s) && Enabled(c, s, step)
    ensures Inv(c, Apply(c, s, step))
  {
    hide RecordsOk, PoolOk, CountsOk, BarrierOk, OnePlaceEach, Apply, Absorbed, Enabled;
    PlacesKeep(c, s, step);
    CountsKeep(c, s, step);
    PoolKeeps(c, s, step);
    BarrierKeeps(c, s, step);
    if step == Absorb { AbsorbKeepsRecords(c, s); } else { MovesKeepRecords(c, s, step); }
    ApplyAbsorb(c, s, step);
  }

  lemma PlacesKeep(c: Config, s: State, step: Step)
    requires OnePlaceEach(c, s) && Enabled(c, s, step)
    ensures OnePlaceEach(c, Apply(c, s, step))
  {
    hide Places, Apply, Enabled;
    forall x: nat ensures Places(Apply(c, s, step), x) == Places(s, x) { StepKeepsPlaces(c, s, step, x); }
  }

  lemma BarrierKeeps(c: Config, s: State, step: Step)
    requires Inv(c, s) && Enabled(c, s, step)
    ensures BarrierOk(c, Apply(c, s, step))
  {
    hide RecordsOk, PoolOk, CountsOk, OnePlaceEach, TurnOk, Apply, Absorbed, Enabled;
    if c.barrier {
      var turn :| TurnOk(c, s, turn);
      if step == Absorb { AbsorbKeepsTurn(c, s, turn); } else { MovesKeepTurn(c, s, step, turn); }
      ApplyAbsorb(c, s, step);
    }
  }

  lemma ApplyAbsorb(c: Config, s: State, step: Step)
    requires Enabled(c, s, step)
    ensures step == Absorb ==> Apply(c, s, step) == Absorbed(c, s)
  {
  }

  /** The start: every client has its first prompt queued, and the pool has a question for every further round. */
  ghost predicate Starts(c: Config, prompts: seq<string>, pool: seq<string>)
  {
    c.clients >= 1 && c.rounds >= 1 && |prompts| == c.clients && |pool| == c.clients * Max(c.rounds - 1, 1)
  }

  lemma {:induction false} FirstPlaces(rs: seq<Req>, x: nat)
    requires forall i :: 0 <= i < |rs| ==> rs[i].client == i
    ensures Times(rs, x) == if x < |rs| then 1 else 0
  {
    if rs != [] { FirstPlaces(rs[..|rs| - 1], x); }
  }

  lemma {:induction false} FirstRounds(c: Config, records: seq<Record>)
    requires c.rounds >= 1 && forall i :: 0 <= i < |records| ==> records[i].round == 0
    ensures AskedAll(c, records) == 0 && RoundsAll(records) == 0
  {
    if records != [] { FirstRounds(c, records[..|records| - 1]); }
  }

  lemma InitialInv(c: Config, prompts: seq<string>, pool: seq<string>)
    requires Starts(c, prompts, pool)
    ensures Inv(c, Initial(c, prompts, pool))
  {
    var s := Initial(c, prompts, pool);
    forall x: nat ensures Places(s, x) == if x < c.clients then 1 else 0 { FirstPlaces(s.ready, x); }
    FirstRounds(c, s.records);
    assert TurnOk(c, s, 0);
  }

  ghost predicate Next(c: Config, s: State, s': State)
  {
    exists step :: Enabled(c, s, step) && s' == Apply(c, s, step)
  }

  ghost function Steps(c: Config): (State, State) -> bool
  {
    (s, s') => Next(c, s, s')
  }

  /** s can come about from some prompts and questions. */
  ghost predicate Reachable(c: Config, s: State)
  {
    exists prompts, pool :: Starts(c, prompts, pool) && Reaches(Steps(c), Initial(c, prompts, pool), s)
  }

  lemma ReachableInv(c: Config, s: State)
    requires Reachable(c, s)
    ensures Inv(c, s) && c.clients >= 1
  {
    var prompts, pool :| Starts(c, prompts, pool) && Reaches(Steps(c), Initial(c, prompts, pool), s);
    InitialInv(c, prompts, pool);
    hide Inv, Reaches, Enabled, Apply;
    forall a, b | Inv(c, a) && Steps(c)(a, b) ensures Inv(c, b) {
      var step :| Enabled(c, a, step) && b == Apply(c, a, step);
      StepKeeps(c, a, step);
    }
    ReachesKeeps(Steps(c), (x: State) => Inv(c, x), Initial(c, prompts, pool), s);
  }
}
