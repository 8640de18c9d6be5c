/** The async work stream in the source's form: the shared fields of the stream, with one
    method per atomic step of the input handler and of the worker. */
module AsyncWork {
  import opened Basics
  import opened AsyncAnswers
  import opened AsyncModel

  class AsyncWorkStream {
    const queueSize: nat
    var dedupQueue: map<string, bool>
    var workQueue: seq<Work>
    var outputCh: seq<Result>
    var live: bool
    var handler: Phase
    var worker: Phase
    ghost var log: Log

    constructor (queueSize: nat)
      ensures Valid() && Now() == Started(queueSize)
    {
      this.queueSize := queueSize;
      dedupQueue, workQueue, outputCh, live := map[], [], [], true;
      handler, worker, log := Idle, Idle, Log([], [], [], [], [], [], []);
    }

    ghost predicate Valid()
      reads this
    {
      forall k :: k in dedupQueue ==> dedupQueue[k]
    }

    ghost function Now(): Stream
      reads this
    {
      Stream(queueSize, live, dedupQueue.Keys, workQueue, handler, worker, outputCh, log)
    }

    /** Size the queue and make the stream; null stands for the panic of making a queue of
        negative size. */
    static method Start(requested: int) returns (s: AsyncWorkStream?)
      ensures s == null <==> requested < 0
      ensures s != null ==>
                fresh(s) && s.Valid() && Some(s.queueSize) == Capacity(requested) && s.Now() == Started(s.queueSize)
    {
      var size := requested;
      if size == 0 {
        size := DEFAULT_QUEUE;
      } else if size > MAX_QUEUE {
        size := MAX_QUEUE;
      }
      if size < 0 {
        return null;
      }
      s := new AsyncWorkStream(size);
    }

    // ---------------------------------------------------------- input handler

    method ReceiveInput(input: Option<Work>)
      requires Valid() && handler.Idle?
      modifies this
      ensures Valid() && Now() == Received(old(Now()), input)
    {
      match input
      case None =>
      case Some(u) =>
        handler := Holding(u);
        log := log.(received := log.received + [u]);
    }

    method CheckDuplicate()
      requires Valid() && handler.Holding?
      modifies this
      ensures Valid() && Now() == Checked(old(Now()))
    {
      var u := handler.u;
      if u.key in dedupQueue && dedupQueue[u.key] {
        handler := Idle;
        log := log.(dropped := log.dropped + [u]);
        return;
      }
      dedupQueue := dedupQueue[u.key := true];
      handler := Placing(u);
    }

    method Enqueue()
      requires Valid() && handler.Placing?
      modifies this
      ensures Valid() && Now() == Enqueued(old(Now()))
    {
      var u := handler.u;
      if |workQueue| < queueSize {
        workQueue := workQueue + [u];
        handler := Idle;
        log := log.(accepted := log.accepted + [u]);
      } else {
        handler := Refused(u);
        log := log.(refused := log.refused + [u]);
      }
    }

    method Withdraw()
      requires Valid() && handler.Refused?
      modifies this
      ensures Valid() && Now() == Withdrawn(old(Now()))
    {
      var u := handler.u;
      dedupQueue := dedupQueue - {u.key};
      handler := Forgetting(u, Result(u.key, QueueFull, None));
    }

    // ----------------------------------------------------------------- worker

    method TakeWork()
      requires Valid() && worker.Idle? && workQueue != []
      modifies this
      ensures Valid() && Now() == Taken(old(Now()))
    {
      var u := workQueue[0];
      workQueue := workQueue[1..];
      worker := Working(u);
      log := log.(taken := log.taken + [u]);
    }

    method Execute(now: int, plugins: set<string>, reply: Reply)
      requires Valid() && worker.Working?
      modifies this
      ensures Valid() && Now() == Executed(old(Now()), now, plugins, reply)
      ensures worker.Forgetting? && worker.u == old(worker).u && Justified(worker.u, now, plugins, reply, worker.r)
    {
      var work := worker.u;
      var res := Result(work.key, NoFailure, None);
      if work.deadline.Some? && work.deadline.value - now <= 0 {
        res := res.(failure := DeadlinePassed);
      } else if work.plugin !in plugins {
        res := res.(failure := PluginMissing);
      } else {
        if reply.error.Some? {
          res := res.(failure := DelegateFailed(reply.error.value));
        }
        if reply.output.Some? {
          res := res.(output := reply.output);
        }
      }
      worker := Forgetting(work, res);
    }

    // ------------------------------------------------ publishing, by either side

    method PublishDelete(side: Side)
      requires Valid() && At(Now(), side).Forgetting?
      modifies this
      ensures Valid() && Now() == Forgotten(old(Now()), side)
    {
      if side == HandlerSide {
        dedupQueue := dedupQueue - {handler.r.key};
        handler := Sending(handler.u, handler.r);
      } else {
        dedupQueue := dedupQueue - {worker.r.key};
        worker := Sending(worker.u, worker.r);
      }
    }

    method PublishSend(side: Side)
      requires Valid() && At(Now(), side).Sending?
      modifies this
      ensures Valid() && Now() == Published(old(Now()), side)
    {
      var p := if side == HandlerSide then handler else worker;
      outputCh := outputCh + [p.r];
      log := log.(answered := log.answered + [p.u]);
      if side == HandlerSide { handler := Idle; } else { worker := Idle; }
    }

    method PublishAbandon(side: Side)
      requires Valid() && At(Now(), side).Sending? && !live
      modifies this
      ensures Valid() && Now() == Abandoned(old(Now()), side)
    {
      log := log.(lost := log.lost + [if side == HandlerSide then handler.u else worker.u]);
      if side == HandlerSide { handler := Idle; } else { worker := Idle; }
    }

    // ------------------------------------------------------------ interleaving

    method Perform(a: Action)
      requires Valid() && Enabled(Now(), a)
      modifies this
      ensures Valid() && Now() == Step(old(Now()), a)
    {
      match a
      case Receive(input) => ReceiveInput(input);
      case Check => CheckDuplicate();
      case Enqueue => Enqueue();
      case Withdraw => Withdraw();
      case Take => TakeWork();
      case Execute(now, plugins, reply) => Execute(now, plugins, reply);
      case Forget(side) => PublishDelete(side);
      case Publish(side) => PublishSend(side);
      case Abandon(side) => PublishAbandon(side);
      case Exit(side) => if side == HandlerSide { handler := Exited; } else { worker := Exited; }
      case Cancel => live := false;
    }

    /** Any interleaving of the two goroutines, up to the first action that is not enabled. */
    method Run(schedule: seq<Action>) returns (done: nat)
      requires Valid() && Now() == Started(queueSize)
      modifies this
      ensures Valid() && done <= |schedule|
      ensures After(Started(queueSize), schedule[..done]) == Some(Now())
      ensures done < |schedule| ==> !Enabled(Now(), schedule[done])
      ensures AsyncModel.Invariant(Now())
      ensures live ==> WorkerAnswers(Now(), Executions(schedule[..done])) && HandlerAnswers(Now())
    {
      done := 0;
      while done < |schedule| && Ready(schedule[done])
        invariant Valid() && done <= |schedule|
        invariant After(Started(queueSize), schedule[..done]) == Some(Now())
      {
        AfterNext(Started(queueSize), schedule[..done], schedule[done]);
        assert schedule[..done + 1] == schedule[..done] + [schedule[done]];
        Perform(schedule[done]);
        done := done + 1;
      }
      EveryInterleaving(queueSize, schedule[..done]);
      if live {
        EveryAnswerJustified(queueSize, schedule[..done]);
      }
    }

    predicate Ready(a: Action)
      reads this
      ensures Ready(a) == Enabled(Now(), a)
    {
      match a
      case Receive(_) => handler.Idle?
      case Check => handler.Holding?
      case Enqueue => handler.Placing?
      case Withdraw => handler.Refused?
      case Take => worker.Idle? && workQueue != []
      case Execute(_, _, _) => worker.Working?
      case Forget(side) => (if side == HandlerSide then handler else worker).Forgetting?
      case Publish(side) => (if side == HandlerSide then handler else worker).Sending?
      case Abandon(side) => (if side == HandlerSide then handler else worker).Sending? && !live
      case Exit(side) => (if side == HandlerSide then handler else worker).Idle? && !live
      case Cancel => true
    }
  }
}
