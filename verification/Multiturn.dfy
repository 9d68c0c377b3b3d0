/** The multi-turn workload generator: a sender and a response handler sharing queues and counters, as a
    step system over every interleaving of the two threads and of the server's answers. */
module Multiturn {
  import opened Options

  datatype Config = Config(clients: nat, rounds: nat, maxParallel: nat, barrier: bool)

  datatype Req = Req(client: nat, text: string)

  /** What came back for a request: the generated text, or nothing if it failed. */
  datatype Answer = Answer(client: nat, asked: string, reply: Option<string>)

  /** A client's finished rounds and the conversation so far. */
  datatype Record = Record(round: nat, history: string)

  /** Where the sender is in its loop: before the check, after it, or between launching and counting. */
  datatype Sender = Idle | Permitted | Launched

  /** Where the handler is: waiting, holding an answer, about to queue one request, or queueing a round. */
  datatype Handler =
    | Waiting
    | Holding(client: nat, asked: string, reply: string)
    | Replying(req: Req)
    | Flushing(reqs: seq<Req>)

  datatype State = State(
    ready: seq<Req>, inflight: seq<Req>, answers: seq<Answer>, handler: Handler, nextRound: seq<Req>,
    lost: seq<nat>, done: seq<nat>,
    records: seq<Record>, sender: Sender, sent: nat, completed: nat, pool: seq<string>)

  datatype Step =
    | Check
    | Launch(i: nat)
    | FindEmpty
    | Count
    | Respond(k: nat, reply: Option<string>)
    | Vanish(k: nat)
    | Take
    | Absorb
    | Requeue
    | Release

  function Initial(c: Config, prompts: seq<string>, pool: seq<string>): State
    requires |prompts| == c.clients
  {
    State(seq(c.clients, i requires 0 <= i < c.clients => Req(i, prompts[i])), [], [], Waiting, [], [], [],
          seq(c.clients, i requires 0 <= i < c.clients => Record(0, prompts[i])), Idle, 0, 0, pool)
  }

  function Without<T>(s: seq<T>, i: nat): (r: seq<T>)
    requires i < |s|
    ensures |r| == |s| - 1
  {
    s[..i] + s[i + 1..]
  }

  predicate Enabled(c: Config, s: State, step: Step)
  {
    match step
    case Check => s.sender == Idle && s.sent < s.completed + c.maxParallel
    case Launch(i) => s.sender == Permitted && i < |s.ready|
    case FindEmpty => s.sender == Permitted && s.ready == []
    case Count => s.sender == Launched
    case Respond(k, _) => k < |s.inflight|
    case Vanish(k) => k < |s.inflight|
    case Take => s.handler == Waiting && s.answers != []
    case Absorb => s.handler.Holding? && s.handler.client < |s.records| && (Continues(c, s) ==> s.pool != [])
    case Requeue => s.handler.Replying?
    case Release => s.handler.Flushing?
  }

  /** The client being handled has another round to go. */
  predicate Continues(c: Config, s: State)
    requires s.handler.Holding? && s.handler.client < |s.records|
  {
    s.records[s.handler.client].round + 1 < c.rounds
  }

  /** The next request of the client being handled: the conversation, the reply, a new question. */
  function NextReq(s: State): Req
    requires s.handler.Holding? && s.handler.client < |s.records| && s.pool != []
  {
    Req(s.handler.client, s.records[s.handler.client].history + s.handler.reply + s.pool[|s.pool| - 1])
  }

  function Absorbed(c: Config, s: State): State
    requires Enabled(c, s, Absorb)
  {
    var x := s.handler.client;
    var round := s.records[x].round + 1;
    if !Continues(c, s) then
      s.(records := s.records[x := Record(round, s.records[x].history + s.handler.reply)],
         completed := s.completed + 1, handler := Waiting, done := s.done + [x])
    else
      var req := NextReq(s);
      var t := s.(records := s.records[x := Record(round, req.text)], completed := s.completed + 1,
                  pool := s.pool[..|s.pool| - 1]);
      if !c.barrier then t.(handler := Replying(req))
      else if |s.nextRound| + 1 == c.clients then t.(handler := Flushing(s.nextRound + [req]), nextRound := [])
      else t.(handler := Waiting, nextRound := s.nextRound + [req])
  }

  function Apply(c: Config, s: State, step: Step): State
    requires Enabled(c, s, step)
  {
    match step
    case Check => s.(sender := Permitted)
    case Launch(i) => s.(sender := Launched, ready := Without(s.ready, i), inflight := s.inflight + [s.ready[i]])
    case FindEmpty => s.(sender := Idle)
    case Count => s.(sender := Idle, sent := s.sent + 1)
    case Respond(k, reply) =>
      s.(inflight := Without(s.inflight, k),
         answers := s.answers + [Answer(s.inflight[k].client, s.inflight[k].text, reply)])
    case Vanish(k) => s.(inflight := Without(s.inflight, k), lost := s.lost + [s.inflight[k].client])
    case Take =>
      var a := s.answers[0];
      if a.reply == None then s.(answers := s.answers[1..], lost := s.lost + [a.client])
      else s.(answers := s.answers[1..], handler := Holding(a.client, a.asked, a.reply.value))
    case Absorb => Absorbed(c, s)
    case Requeue => s.(handler := Waiting, ready := s.ready + [s.handler.req])
    case Release =>
      if s.handler.reqs == [] then s.(handler := Waiting)
      else s.(handler := Flushing(s.handler.reqs[1..]), ready := s.ready + [s.handler.reqs[0]])
  }

  /** Both queues are first-in first-out: requests and answers join at the end, answers leave at the front, and a
      request leaves where the sender takes it. */
  lemma QueuesKeepOrder(c: Config, s: State, step: Step)
    requires Enabled(c, s, step)
    ensures var s' := Apply(c, s, step);
            && (step.Launch? && step.i == 0 ==> [s.ready[0]] + s'.ready == s.ready)
            && (!step.Launch? ==> s.ready <= s'.ready)
            && (step.Take? ==> [s.answers[0]] + s'.answers == s.answers)
            && (!step.Take? ==> s.answers <= s'.answers)
  {
  }

  // ---- Places ----------------------------------------------------------------------------------

  /** How often a client occurs among requests, answers, or plain client lists. */
  function Times(rs: seq<Req>, x: nat): nat
  {
    if rs == [] then 0 else Times(rs[..|rs| - 1], x) + One(rs[|rs| - 1].client, x)
  }

  function AnswerTimes(answers: seq<Answer>, x: nat): nat
  {
    if answers == [] then 0 else AnswerTimes(answers[1..], x) + One(answers[0].client, x)
  }

  function ListTimes(xs: seq<nat>, x: nat): nat
  {
    if xs == [] then 0 else ListTimes(xs[..|xs| - 1], x) + One(xs[|xs| - 1], x)
  }

  function One(y: nat, x: nat): nat
  {
    if y == x then 1 else 0
  }

  function HandlerTimes(h: Handler, x: nat): nat
  {
    match h
    case Waiting => 0
    case Holding(y, _, _) => One(y, x)
    case Replying(req) => One(req.client, x)
    case Flushing(reqs) => Times(reqs, x)
  }

  /** In how many places a client is. */
  function Places(s: State, x: nat): nat
  {
    Times(s.ready, x) + Times(s.inflight, x) + AnswerTimes(s.answers, x)
    + HandlerTimes(s.handler, x) + Times(s.nextRound, x)
    + ListTimes(s.lost, x) + ListTimes(s.done, x)
  }

  lemma TimesAppend(rs: seq<Req>, r: Req, x: nat)
    ensures Times(rs + [r], x) == Times(rs, x) + One(r.client, x)
  {
    assert (rs + [r])[..|rs|] == rs;
  }

  lemma ListTimesAppend(xs: seq<nat>, y: nat, x: nat)
    ensures ListTimes(xs + [y], x) == ListTimes(xs, x) + One(y, x)
  {
    assert (xs + [y])[..|xs|] == xs;
  }

  lemma {:induction false} AnswerTimesAppend(answers: seq<Answer>, a: Answer, x: nat)
    ensures AnswerTimes(answers + [a], x) == AnswerTimes(answers, x) + One(a.client, x)
  {
    if answers != [] {
      AnswerTimesAppend(answers[1..], a, x);
      assert (answers + [a])[1..] == answers[1..] + [a];
    } else {
      assert ([] + [a])[1..] == [];
    }
  }

  lemma {:induction false} TimesWithout(rs: seq<Req>, i: nat, x: nat)
    requires i < |rs|
    ensures Times(rs, x) == Times(Without(rs, i), x) + One(rs[i].client, x)
  {
    var n := |rs| - 1;
    if i < n {
      TimesWithout(rs[..n], i, x);
      assert Without(rs, i) == Without(rs[..n], i) + [rs[n]];
      TimesAppend(Without(rs[..n], i), rs[n], x);
    } else {
      assert Without(rs, i) == rs[..n];
    }
  }

  lemma TimesHead(rs: seq<Req>, x: nat)
    requires rs != []
    ensures Times(rs, x) == Times(rs[1..], x) + One(rs[0].client, x)
  {
    TimesWithout(rs, 0, x);
    assert Without(rs, 0) == rs[1..];
  }

  lemma {:induction false} AnswerTimesHas(answers: seq<Answer>, i: nat)
    requires i < |answers|
    ensures AnswerTimes(answers, answers[i].client) > 0
  {
    if i > 0 { AnswerTimesHas(answers[1..], i - 1); }
  }

  lemma {:induction false} ListTimesHas(xs: seq<nat>, i: nat)
    requires i < |xs|
    ensures ListTimes(xs, xs[i]) > 0
  {
    if i < |xs| - 1 { ListTimesHas(xs[..|xs| - 1], i); }
  }

  lemma AbsorbKeepsPlaces(c: Config, s: State, x: nat)
    requires Enabled(c, s, Absorb)
    ensures Places(Absorbed(c, s), x) == Places(s, x)
  {
    if Continues(c, s) {
      TimesAppend(s.nextRound, NextReq(s), x);
    } else {
      ListTimesAppend(s.done, s.handler.client, x);
    }
  }

  /** No step loses or duplicates a client. */
  lemma {:induction false} StepKeepsPlaces(c: Config, s: State, step: Step, x: nat)
    requires Enabled(c, s, step)
    ensures Places(Apply(c, s, step), x) == Places(s, x)
  {
    match step
    case Check =>
    case Launch(i) =>
      TimesWithout(s.ready, i, x);
      TimesAppend(s.inflight, s.ready[i], x);
    case FindEmpty =>
    case Count =>
    case Respond(k, reply) =>
      TimesWithout(s.inflight, k, x);
      AnswerTimesAppend(s.answers, Answer(s.inflight[k].client, s.inflight[k].text, reply), x);
    case Vanish(k) =>
      TimesWithout(s.inflight, k, x);
      ListTimesAppend(s.lost, s.inflight[k].client, x);
    case Take =>
      ListTimesAppend(s.lost, s.answers[0].client, x);
    case Absorb => AbsorbKeepsPlaces(c, s, x);
    case Requeue => TimesAppend(s.ready, s.handler.req, x);
    case Release =>
      if s.handler.reqs != [] {
        TimesHead(s.handler.reqs, x);
        TimesAppend(s.ready, s.handler.reqs[0], x);
      }
  }
}
