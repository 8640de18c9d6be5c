/** What the answers of the async worker say, over whole runs: each answer of the worker is the
    outcome of executing its unit, each answer of the input handler reports a full queue. */
module AsyncAnswers {
  import opened Basics
  import opened AsyncModel

  /** The executions of a schedule, in order. */
  function Executions(schedule: seq<Action>): (xs: seq<Action>)
    ensures forall i :: 0 <= i < |xs| ==> xs[i].Execute?
  {
    if schedule == [] then []
    else
      var n := |schedule| - 1;
      Executions(schedule[..n]) + (if schedule[n].Execute? then [schedule[n]] else [])
  }

  /** The answers that report a full queue, or the others. */
  function Answers(out: seq<Result>, full: bool): seq<Result>
  {
    if out == [] then []
    else
      var n := |out| - 1;
      Answers(out[..n], full) + (if (out[n].failure == QueueFull) == full then [out[n]] else [])
  }

  lemma AnswersNext(out: seq<Result>, r: Result, full: bool)
    ensures Answers(out + [r], full) == Answers(out, full) + (if (r.failure == QueueFull) == full then [r] else [])
  {
  }

  /** The answer a goroutine is about to publish. */
  function InHand(p: Phase): seq<Result>
  {
    if p.Forgetting? || p.Sending? then [p.r] else []
  }

  /** The answers of the worker, published and about to be, are the outcomes of executing the
      units taken, in order, each by the execution made for it. */
  ghost predicate WorkerAnswers(s: Stream, xs: seq<Action>)
  {
    var rs := Answers(s.output, false) + InHand(s.worker);
    && |rs| == |xs| && |s.log.taken| == |xs| + (if s.worker.Working? then 1 else 0)
    && (s.worker.Working? ==> s.worker.u == s.log.taken[|xs|])
    && (forall i :: 0 <= i < |xs| ==>
          xs[i].Execute? && Justified(s.log.taken[i], xs[i].now, xs[i].plugins, xs[i].reply, rs[i]))
  }

  /** Those of the handler report, for each unit refused, in order, a full queue and no output. */
  predicate HandlerAnswers(s: Stream)
  {
    var rs := Answers(s.output, true) + InHand(s.handler);
    && |s.log.refused| == |rs| + (if s.handler.Refused? then 1 else 0)
    && (s.handler.Refused? ==> s.handler.u == s.log.refused[|rs|])
    && (forall i :: 0 <= i < |rs| ==> rs[i] == Result(s.log.refused[i].key, QueueFull, None))
  }

  lemma WorkerStep(s: Stream, xs: seq<Action>, a: Action)
    requires WellAnswered(s) && s.live && Enabled(s, a) && !a.Cancel? && WorkerAnswers(s, xs)
    ensures WorkerAnswers(Step(s, a), if a.Execute? then xs + [a] else xs)
  {
    hide Keys;
    hide ResultKeys;
    hide Answers;
    hide Justified;
    match a
    case Execute(now, plugins, reply) => ExecutionJustified(s.worker.u, now, plugins, reply);
    case Publish(side) => AnswersNext(s.output, At(s, side).r, false);
    case _ =>
  }

  lemma HandlerStep(s: Stream, a: Action)
    requires WellAnswered(s) && s.live && Enabled(s, a) && !a.Cancel? && HandlerAnswers(s)
    ensures HandlerAnswers(Step(s, a))
  {
    hide Keys;
    hide ResultKeys;
    hide Answers;
    hide Execution;
    match a
    case Publish(side) => AnswersNext(s.output, At(s, side).r, true);
    case _ =>
  }

  lemma LiveBefore(s: Stream, a: Action)
    requires Enabled(s, a) && Step(s, a).live
    ensures s.live && !a.Cancel?
  {
  }

  /** In every interleaving under a live context, whatever the times, plugins and replies. */
  lemma {:induction false} EveryAnswerJustified(capacity: nat, schedule: seq<Action>)
    requires After(Started(capacity), schedule).Some? && After(Started(capacity), schedule).value.live
    ensures var s := After(Started(capacity), schedule).value;
            WorkerAnswers(s, Executions(schedule)) && HandlerAnswers(s)
  {
    hide WorkerAnswers;
    hide HandlerAnswers;
    hide Step;
    hide Enabled;
    if schedule == [] {
      StartedAnswers(capacity);
    } else {
      var n := |schedule| - 1;
      var s, a := After(Started(capacity), schedule[..n]).value, schedule[n];
      LiveBefore(s, a);
      EveryAnswerJustified(capacity, schedule[..n]);
      EveryInterleaving(capacity, schedule[..n]);
      WorkerStep(s, Executions(schedule[..n]), a);
      HandlerStep(s, a);
      assert Executions(schedule[..n]) + [] == Executions(schedule[..n]);
    }
  }

  lemma StartedAnswers(capacity: nat)
    ensures WorkerAnswers(Started(capacity), []) && HandlerAnswers(Started(capacity))
  {
  }

  /** The units given to the stream, in order; inputs that do not parse are none. */
  function Given(schedule: seq<Action>): seq<Work>
  {
    if schedule == [] then []
    else
      var n := |schedule| - 1;
      Given(schedule[..n])
      + (if schedule[n].Receive? && schedule[n].input.Some? then [schedule[n].input.value] else [])
  }

  /** Every unit given is received, so that what is said of received units is said of them. */
  lemma {:induction false} EveryUnitReceived(capacity: nat, schedule: seq<Action>)
    requires After(Started(capacity), schedule).Some?
    ensures After(Started(capacity), schedule).value.log.received == Given(schedule)
  {
    hide Step;
    if schedule != [] {
      var n := |schedule| - 1;
      EveryUnitReceived(capacity, schedule[..n]);
      ReceivedBy(After(Started(capacity), schedule[..n]).value, schedule[n]);
    }
  }

  lemma ReceivedBy(s: Stream, a: Action)
    requires Enabled(s, a)
    ensures Step(s, a).log.received
         == s.log.received + (if a.Receive? && a.input.Some? then [a.input.value] else [])
  {
    hide Execution;
  }
}
