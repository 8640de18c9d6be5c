/** The deduplicating async worker as a state machine: two goroutines whose atomic steps
    interleave freely over a dedup map, a bounded queue and an output. */
module AsyncModel {
  import opened Basics

  /** A unit of work; None is the zero deadline. */
  datatype Work = Work(key: string, deadline: Option<int>, plugin: string, request: string)

  datatype Failure = NoFailure | DeadlinePassed | PluginMissing | DelegateFailed(message: string) | QueueFull

  datatype Result = Result(key: string, failure: Failure, output: Option<string>)

  /** What a plugin's Delegate returns: an error, output, both or neither. */
  datatype Reply = Reply(error: Option<string>, output: Option<string>)

  /** Result of executing u at time now. */
  function Execution(u: Work, now: int, plugins: set<string>, reply: Reply): Result
  {
    if u.deadline.Some? && u.deadline.value - now <= 0 then Result(u.key, DeadlinePassed, None)
    else if u.plugin !in plugins then Result(u.key, PluginMissing, None)
    else Result(u.key, if reply.error.Some? then DelegateFailed(reply.error.value) else NoFailure, reply.output)
  }

  predicate Expired(u: Work, now: int)
  {
    u.deadline.Some? && u.deadline.value <= now
  }

  /** What the answer to u, executed at time now, has to be: a deadline at or before now and
      a plugin that is not there are reported without output, in that order; otherwise the
      answer carries the plugin's output, and its error if there is one. */
  ghost predicate Justified(u: Work, now: int, plugins: set<string>, reply: Reply, r: Result)
  {
    && r.key == u.key
    && (r.failure == DeadlinePassed <==> Expired(u, now))
    && (r.failure == PluginMissing <==> !Expired(u, now) && u.plugin !in plugins)
    && (Expired(u, now) || u.plugin !in plugins ==> r.output == None)
    && (!Expired(u, now) && u.plugin in plugins ==>
          && r.output == reply.output
          && (forall m :: r.failure == DelegateFailed(m) <==> reply.error == Some(m))
          && (r.failure == NoFailure <==> reply.error == None))
  }

  lemma ExecutionJustified(u: Work, now: int, plugins: set<string>, reply: Reply)
    ensures Justified(u, now, plugins, reply, Execution(u, now, plugins, reply))
  {
  }

  const MAX_QUEUE := 200
  const DEFAULT_QUEUE := 50

  /** Capacity of the queue made for a requested size; making a negative one panics. */
  function Capacity(requested: int): (cap: Option<nat>)
    ensures cap.Some? ==> 0 < cap.value <= MAX_QUEUE && (requested > 0 ==> cap.value <= requested)
    ensures 0 < requested <= MAX_QUEUE ==> cap == Some(requested)
    ensures requested == 0 ==> cap == Some(50)
    ensures cap == Some(MAX_QUEUE) <==> requested >= MAX_QUEUE
    ensures cap.None? <==> requested < 0
  {
    if requested == 0 then Some(DEFAULT_QUEUE)
    else if requested > MAX_QUEUE then Some(MAX_QUEUE)
    else if requested < 0 then None
    else Some(requested)
  }

  /** Where a goroutine stands. Holding, Placing and Refused are the input handler's,
      Working is the worker's; the others are met by both. */
  datatype Phase =
    | Idle
    | Holding(u: Work)               // received, not yet looked up in the dedup map
    | Placing(u: Work)               // recorded in the dedup map, not yet queued
    | Refused(u: Work)               // found the queue full
    | Working(u: Work)               // taken from the queue, being executed
    | Forgetting(u: Work, r: Result) // about to delete the key from the dedup map
    | Sending(u: Work, r: Result)    // about to write the output
    | Exited

  /** What has happened so far, unit by unit. */
  datatype Log = Log(
    received: seq<Work>, dropped: seq<Work>, refused: seq<Work>, accepted: seq<Work>,
    taken: seq<Work>, answered: seq<Work>, lost: seq<Work>)

  /** The shared state and both goroutines. */
  datatype Stream = Stream(
    capacity: nat, live: bool, dedup: set<string>, queue: seq<Work>, handler: Phase, worker: Phase,
    output: seq<Result>, log: Log)

  function Started(capacity: nat): Stream
  {
    Stream(capacity, true, {}, [], Idle, Idle, [], Log([], [], [], [], [], [], []))
  }

  datatype Side = HandlerSide | WorkerSide

  function At(s: Stream, side: Side): Phase
  {
    if side == HandlerSide then s.handler else s.worker
  }

  function Move(s: Stream, side: Side, p: Phase): Stream
  {
    if side == HandlerSide then s.(handler := p) else s.(worker := p)
  }

  /** The input handler reads an input; None is one that does not parse. */
  function Received(s: Stream, input: Option<Work>): Stream
  {
    match input
    case None => s
    case Some(u) => s.(handler := Holding(u), log := s.log.(received := s.log.received + [u]))
  }

  /** Under the lock: drop a unit whose key is recorded, or record it. */
  function Checked(s: Stream): Stream
    requires s.handler.Holding?
  {
    var u := s.handler.u;
    if u.key in s.dedup then s.(handler := Idle, log := s.log.(dropped := s.log.dropped + [u]))
    else s.(handler := Placing(u), dedup := s.dedup + {u.key})
  }

  /** Queue the unit if there is room, without blocking. */
  function Enqueued(s: Stream): Stream
    requires s.handler.Placing?
  {
    var u := s.handler.u;
    if |s.queue| < s.capacity then
      s.(handler := Idle, queue := s.queue + [u], log := s.log.(accepted := s.log.accepted + [u]))
    else s.(handler := Refused(u), log := s.log.(refused := s.log.refused + [u]))
  }

  /** Under the lock: forget the key of a unit that found the queue full. */
  function Withdrawn(s: Stream): Stream
    requires s.handler.Refused?
  {
    var u := s.handler.u;
    s.(handler := Forgetting(u, Result(u.key, QueueFull, None)), dedup := s.dedup - {u.key})
  }

  function Taken(s: Stream): Stream
    requires s.queue != []
  {
    var u := s.queue[0];
    s.(worker := Working(u), queue := s.queue[1..], log := s.log.(taken := s.log.taken + [u]))
  }

  function Executed(s: Stream, now: int, plugins: set<string>, reply: Reply): Stream
    requires s.worker.Working?
  {
    s.(worker := Forgetting(s.worker.u, Execution(s.worker.u, now, plugins, reply)))
  }

  /** Under the lock, at the start of publishing: forget the key. */
  function Forgotten(s: Stream, side: Side): Stream
    requires At(s, side).Forgetting?
  {
    var p := At(s, side);
    Move(s.(dedup := s.dedup - {p.r.key}), side, Sending(p.u, p.r))
  }

  function Published(s: Stream, side: Side): Stream
    requires At(s, side).Sending?
  {
    var p := At(s, side);
    Move(s.(output := s.output + [p.r], log := s.log.(answered := s.log.answered + [p.u])), side, Idle)
  }

  /** The output select chose the cancelled context. */
  function Abandoned(s: Stream, side: Side): Stream
    requires At(s, side).Sending?
  {
    Move(s.(log := s.log.(lost := s.log.lost + [At(s, side).u])), side, Idle)
  }

  datatype Action =
    | Receive(input: Option<Work>)
    | Check
    | Enqueue
    | Withdraw
    | Take
    | Execute(now: int, plugins: set<string>, reply: Reply)
    | Forget(side: Side)
    | Publish(side: Side)
    | Abandon(side: Side)
    | Exit(side: Side)
    | Cancel

  predicate Enabled(s: Stream, a: Action)
  {
    match a
    case Receive(_) => s.handler.Idle?
    case Check => s.handler.Holding?
    case Enqueue => s.handler.Placing?
    case Withdraw => s.handler.Refused?
    case Take => s.worker.Idle? && s.queue != []
    case Execute(_, _, _) => s.worker.Working?
    case Forget(side) => At(s, side).Forgetting?
    case Publish(side) => At(s, side).Sending?
    case Abandon(side) => At(s, side).Sending? && !s.live
    case Exit(side) => At(s, side).Idle? && !s.live
    case Cancel => true
  }

  function Step(s: Stream, a: Action): Stream
    requires Enabled(s, a)
  {
    match a
    case Receive(input) => Received(s, input)
    case Check => Checked(s)
    case Enqueue => Enqueued(s)
    case Withdraw => Withdrawn(s)
    case Take => Taken(s)
    case Execute(now, plugins, reply) => Executed(s, now, plugins, reply)
    case Forget(side) => Forgotten(s, side)
    case Publish(side) => Published(s, side)
    case Abandon(side) => Abandoned(s, side)
    case Exit(side) => Move(s, side, Exited)
    case Cancel => s.(live := false)
  }

  /** State after a schedule, or None when some action of it is not enabled where it is taken. */
  function After(s: Stream, schedule: seq<Action>): Option<Stream>
  {
    if schedule == [] then Some(s)
    else
      var n := |schedule| - 1;
      match After(s, schedule[..n])
      case None => None
      case Some(t) => if Enabled(t, schedule[n]) then Some(Step(t, schedule[n])) else None
  }

  // ------------------------------------------------------ what always holds

  function Keys(us: seq<Work>): (ks: seq<string>)
    ensures |ks| == |us| && forall i :: 0 <= i < |us| ==> ks[i] == us[i].key
  {
    if us == [] then [] else Keys(us[..|us| - 1]) + [us[|us| - 1].key]
  }

  lemma KeysOfConcat(a: seq<Work>, b: seq<Work>)
    ensures Keys(a + b) == Keys(a) + Keys(b)
  {
  }

  /** The unit the worker is executing. */
  function Front(w: Phase): seq<Work>
  {
    if w.Working? || w.Forgetting? then [w.u] else []
  }

  /** The unit recorded by the handler and not queued. */
  function Back(h: Phase): seq<Work>
  {
    if h.Placing? || h.Refused? then [h.u] else []
  }

  /** Units being executed, then those queued, then the one pending in the handler. */
  function Line(w: Phase, queue: seq<Work>, h: Phase): seq<Work>
  {
    Front(w) + queue + Back(h)
  }

  function Pending(s: Stream): seq<Work>
  {
    Line(s.worker, s.queue, s.handler)
  }

  /** The dedup map holds exactly the keys executing, queued or pending, all distinct; the
      second delete made for a refused unit finds its key gone already. */
  ghost predicate Deduplicated(s: Stream)
  {
    && Lists(Keys(Pending(s)), s.dedup)
    && (s.handler.Forgetting? ==> s.handler.r.key !in s.dedup)
  }

  predicate Bounded(s: Stream)
  {
    |s.queue| <= s.capacity
  }

  /** Units are taken for execution in the order in which they were accepted. */
  predicate InOrder(s: Stream)
  {
    s.log.accepted == s.log.taken + s.queue
  }

  /** How often u occurs in us. */
  function Count(us: seq<Work>, u: Work): nat
  {
    multiset(us)[u]
  }

  function Arriving(p: Phase, u: Work): nat
  {
    if (p.Holding? || p.Placing?) && p.u == u then 1 else 0
  }

  function Answering(p: Phase, u: Work): nat
  {
    if (p.Refused? || p.Working? || p.Forgetting? || p.Sending?) && p.u == u then 1 else 0
  }

  /** Every received unit is dropped, refused, accepted or still in the handler's hands. */
  ghost predicate Filed(l: Log, h: Phase)
  {
    forall u :: Count(l.received, u)
                == Count(l.dropped, u) + Count(l.refused, u) + Count(l.accepted, u) + Arriving(h, u)
  }

  /** Every unit refused or taken is answered, lost or being answered. */
  ghost predicate Accounted(l: Log, h: Phase, w: Phase)
  {
    forall u :: Count(l.refused, u) + Count(l.taken, u)
                == Count(l.answered, u) + Count(l.lost, u) + Answering(h, u) + Answering(w, u)
  }

  predicate Fits(p: Phase)
  {
    p.Forgetting? || p.Sending? ==> p.r.key == p.u.key
  }

  /** Results carry the keys of the units they answer; none is lost while the context lives;
      only the handler reports a full queue; each goroutine is only in phases of its own and
      exits only when cancelled. */
  predicate WellAnswered(s: Stream)
  {
    && Keys(s.log.answered) == ResultKeys(s.output)
    && Fits(s.handler) && Fits(s.worker)
    && (s.live ==> s.log.lost == [] && !s.handler.Exited? && !s.worker.Exited?)
    && !s.handler.Working?
    && !(s.worker.Holding? || s.worker.Placing? || s.worker.Refused?)
    && (s.handler.Forgetting? || s.handler.Sending? ==> s.handler.r.failure == QueueFull)
    && (s.worker.Forgetting? || s.worker.Sending? ==> s.worker.r.failure != QueueFull)
  }

  function ResultKeys(rs: seq<Result>): (ks: seq<string>)
    ensures |ks| == |rs| && forall i :: 0 <= i < |rs| ==> ks[i] == rs[i].key
  {
    if rs == [] then [] else ResultKeys(rs[..|rs| - 1]) + [rs[|rs| - 1].key]
  }

  ghost predicate Invariant(s: Stream)
  {
    && Deduplicated(s)
    && Bounded(s)
    && InOrder(s)
    && Filed(s.log, s.handler)
    && Accounted(s.log, s.handler, s.worker)
    && WellAnswered(s)
  }

  lemma CountAppend(us: seq<Work>, v: Work)
    ensures forall u :: Count(us + [v], u) == Count(us, u) + (if u == v then 1 else 0)
  {
  }

  lemma ReceivedFiled(l: Log, u: Work)
    requires Filed(l, Idle)
    ensures Filed(l.(received := l.received + [u]), Holding(u))
  {
  }

  lemma DroppedFiled(l: Log, u: Work)
    requires Filed(l, Holding(u))
    ensures Filed(l.(dropped := l.dropped + [u]), Idle)
  {
  }

  lemma QueuedFiled(l: Log, u: Work)
    requires Filed(l, Placing(u))
    ensures Filed(l.(accepted := l.accepted + [u]), Idle)
    ensures Filed(l.(refused := l.refused + [u]), Refused(u))
  {
  }

  lemma RefusedAccounted(l: Log, u: Work, w: Phase)
    requires Accounted(l, Placing(u), w)
    ensures Accounted(l.(refused := l.refused + [u]), Refused(u), w)
  {
  }

  lemma TakenAccounted(l: Log, h: Phase, u: Work)
    requires Accounted(l, h, Idle)
    ensures Accounted(l.(taken := l.taken + [u]), h, Working(u))
  {
  }

  lemma HandlerEndAccounted(l: Log, h: Phase, w: Phase)
    requires Accounted(l, h, w) && h.Sending?
    ensures Accounted(l.(answered := l.answered + [h.u]), Idle, w)
    ensures Accounted(l.(lost := l.lost + [h.u]), Idle, w)
  {
  }

  lemma WorkerEndAccounted(l: Log, h: Phase, w: Phase)
    requires Accounted(l, h, w) && w.Sending?
    ensures Accounted(l.(answered := l.answered + [w.u]), h, Idle)
    ensures Accounted(l.(lost := l.lost + [w.u]), h, Idle)
  {
  }

  lemma LineMoves(w: Phase, queue: seq<Work>, h: Phase)
    ensures h.Placing? ==> Line(w, queue + [h.u], Idle) == Line(w, queue, h)
    ensures w.Idle? && queue != [] ==> Line(Working(queue[0]), queue[1..], h) == Line(w, queue, h)
  {
  }

  lemma LineEnds(w: Phase, queue: seq<Work>, h: Phase)
    ensures h.Placing? || h.Refused? ==> Line(w, queue, h) == Line(w, queue, Idle) + [h.u]
    ensures w.Forgetting? ==> Line(w, queue, h) == [w.u] + Line(Idle, queue, h)
  {
  }

  lemma ListsKeysAppend(us: seq<Work>, u: Work, dedup: set<string>)
    ensures u.key !in dedup && Lists(Keys(us), dedup) ==> Lists(Keys(us + [u]), dedup + {u.key})
    ensures Lists(Keys(us + [u]), dedup) ==> Lists(Keys(us), dedup - {u.key})
  {
  }

  lemma ListsKeysFirst(u: Work, us: seq<Work>, dedup: set<string>)
    requires Lists(Keys([u] + us), dedup)
    ensures Lists(Keys(us), dedup - {u.key})
  {
    var ks := Keys([u] + us);
    assert ks[1..] == Keys(us);
    ListsDropFirst(ks, dedup);
  }

  lemma FiledIgnores(l: Log, l': Log, h: Phase, h': Phase)
    requires Filed(l, h) && forall u :: Arriving(h, u) == Arriving(h', u)
    requires l'.received == l.received && l'.dropped == l.dropped && l'.refused == l.refused
             && l'.accepted == l.accepted
    ensures Filed(l', h')
  {
  }

  lemma AccountedIgnores(l: Log, l': Log, h: Phase, h': Phase, w: Phase, w': Phase)
    requires Accounted(l, h, w)
    requires forall u :: Answering(h, u) == Answering(h', u) && Answering(w, u) == Answering(w', u)
    requires l'.refused == l.refused && l'.taken == l.taken && l'.answered == l.answered && l'.lost == l.lost
    ensures Accounted(l', h', w')
  {
  }

  lemma AnswerKeys(answered: seq<Work>, output: seq<Result>, p: Phase)
    requires Keys(answered) == ResultKeys(output) && Fits(p) && p.Sending?
    ensures Keys(answered + [p.u]) == ResultKeys(output + [p.r])
  {
  }

  lemma ReceivedKeeps(s: Stream, input: Option<Work>)
    requires Invariant(s) && s.handler.Idle?
    ensures Invariant(Received(s, input))
  {
    hide Lists;
    hide Keys;
    hide ResultKeys;
    hide Filed;
    hide Accounted;
    if input.Some? {
      ReceivedFiled(s.log, input.value);
      AccountedIgnores(s.log, Received(s, input).log, s.handler, Holding(input.value), s.worker, s.worker);
    }
  }

  lemma CheckedKeeps(s: Stream)
    requires Invariant(s) && s.handler.Holding?
    ensures Invariant(Checked(s))
  {
    hide Lists;
    hide Keys;
    hide ResultKeys;
    hide Filed;
    hide Accounted;
    var u := s.handler.u;
    if u.key in s.dedup {
      DroppedFiled(s.log, u);
      AccountedIgnores(s.log, Checked(s).log, s.handler, Idle, s.worker, s.worker);
    } else {
      AccountedIgnores(s.log, s.log, s.handler, Placing(u), s.worker, s.worker);
      FiledIgnores(s.log, s.log, s.handler, Placing(u));
      LineEnds(s.worker, s.queue, Placing(u));
      ListsKeysAppend(Pending(s), u, s.dedup);
    }
  }

  lemma EnqueuedKeeps(s: Stream)
    requires Invariant(s) && s.handler.Placing?
    ensures Invariant(Enqueued(s))
  {
    hide Lists;
    hide Keys;
    hide ResultKeys;
    hide Filed;
    hide Accounted;
    var u := s.handler.u;
    QueuedFiled(s.log, u);
    if |s.queue| < s.capacity {
      AccountedIgnores(s.log, s.log.(accepted := s.log.accepted + [u]), s.handler, Idle, s.worker, s.worker);
      LineMoves(s.worker, s.queue, s.handler);
      assert s.log.accepted + [u] == s.log.taken + (s.queue + [u]);
    } else {
      RefusedAccounted(s.log, u, s.worker);
    }
  }

  lemma WithdrawnKeeps(s: Stream)
    requires Invariant(s) && s.handler.Refused?
    ensures Invariant(Withdrawn(s))
  {
    hide Lists;
    hide Keys;
    hide ResultKeys;
    hide Filed;
    hide Accounted;
    var u, h := s.handler.u, Withdrawn(s).handler;
    FiledIgnores(s.log, s.log, s.handler, h);
    AccountedIgnores(s.log, s.log, s.handler, h, s.worker, s.worker);
    LineEnds(s.worker, s.queue, s.handler);
    ListsKeysAppend(Pending(Withdrawn(s)), u, s.dedup);
  }

  lemma TakenKeeps(s: Stream)
    requires Invariant(s) && s.worker.Idle? && s.queue != []
    ensures Invariant(Taken(s))
  {
    hide Lists;
    hide Keys;
    hide ResultKeys;
    hide Filed;
    hide Accounted;
    var u := s.queue[0];
    TakenAccounted(s.log, s.handler, u);
    FiledIgnores(s.log, Taken(s).log, s.handler, s.handler);
    LineMoves(s.worker, s.queue, s.handler);
    assert s.queue == [u] + s.queue[1..];
    assert s.log.taken + s.queue == s.log.taken + [u] + s.queue[1..];
  }

  lemma ExecutedKeeps(s: Stream, now: int, plugins: set<string>, reply: Reply)
    requires Invariant(s) && s.worker.Working?
    ensures Invariant(Executed(s, now, plugins, reply))
  {
    hide Lists;
    hide Keys;
    hide ResultKeys;
    hide Filed;
    hide Accounted;
    AccountedIgnores(s.log, s.log, s.handler, s.handler, s.worker, Executed(s, now, plugins, reply).worker);
  }

  lemma ForgottenKeeps(s: Stream, side: Side)
    requires Invariant(s) && At(s, side).Forgetting?
    ensures Invariant(Forgotten(s, side))
  {
    hide Lists;
    hide Keys;
    hide ResultKeys;
    hide Filed;
    hide Accounted;
    var t := Forgotten(s, side);
    FiledIgnores(s.log, s.log, s.handler, t.handler);
    AccountedIgnores(s.log, s.log, s.handler, t.handler, s.worker, t.worker);
    if side == HandlerSide {
      assert t.dedup == s.dedup;
    } else {
      LineEnds(s.worker, s.queue, s.handler);
      LineEnds(t.worker, s.queue, s.handler);
      ListsKeysFirst(s.worker.u, Pending(t), s.dedup);
    }
  }

  lemma PublishedKeeps(s: Stream, side: Side)
    requires Invariant(s) && At(s, side).Sending?
    ensures Invariant(Published(s, side))
  {
    hide Lists;
    hide Keys;
    hide ResultKeys;
    hide Filed;
    hide Accounted;
    var t := Published(s, side);
    FiledIgnores(s.log, t.log, s.handler, t.handler);
    if side == HandlerSide {
      HandlerEndAccounted(s.log, s.handler, s.worker);
    } else {
      WorkerEndAccounted(s.log, s.handler, s.worker);
    }
    AnswerKeys(s.log.answered, s.output, At(s, side));
  }

  lemma AbandonedKeeps(s: Stream, side: Side)
    requires Invariant(s) && At(s, side).Sending? && !s.live
    ensures Invariant(Abandoned(s, side))
  {
    hide Lists;
    hide Keys;
    hide ResultKeys;
    hide Filed;
    hide Accounted;
    var t := Abandoned(s, side);
    FiledIgnores(s.log, t.log, s.handler, t.handler);
    if side == HandlerSide {
      HandlerEndAccounted(s.log, s.handler, s.worker);
    } else {
      WorkerEndAccounted(s.log, s.handler, s.worker);
    }
  }

  lemma ExitKeeps(s: Stream, side: Side)
    requires Invariant(s) && At(s, side).Idle? && !s.live
    ensures Invariant(Move(s, side, Exited))
  {
    hide Lists;
    hide Keys;
    hide ResultKeys;
    hide Filed;
    hide Accounted;
    var t := Move(s, side, Exited);
    FiledIgnores(s.log, s.log, s.handler, t.handler);
    AccountedIgnores(s.log, s.log, s.handler, t.handler, s.worker, t.worker);
  }

  lemma CancelKeeps(s: Stream)
    requires Invariant(s)
    ensures Invariant(s.(live := false))
  {
    hide Lists;
    hide Keys;
    hide ResultKeys;
    hide Filed;
    hide Accounted;
  }

  /** Whatever step either goroutine takes, or a cancellation, keeps all of it. */
  lemma StepKeepsInvariant(s: Stream, a: Action)
    requires Invariant(s) && Enabled(s, a)
    ensures Invariant(Step(s, a))
    ensures Step(s, a).capacity == s.capacity
  {
    hide Invariant;
    match a
    case Receive(input) => ReceivedKeeps(s, input);
    case Check => CheckedKeeps(s);
    case Enqueue => EnqueuedKeeps(s);
    case Withdraw => WithdrawnKeeps(s);
    case Take => TakenKeeps(s);
    case Execute(now, plugins, reply) => ExecutedKeeps(s, now, plugins, reply);
    case Forget(side) => ForgottenKeeps(s, side);
    case Publish(side) => PublishedKeeps(s, side);
    case Abandon(side) => AbandonedKeeps(s, side);
    case Exit(side) => ExitKeeps(s, side);
    case Cancel => CancelKeeps(s);
  }

  lemma StartedInvariant(capacity: nat)
    ensures Invariant(Started(capacity))
  {
  }

  /** Every interleaving from a fresh start satisfies the invariant. */
  lemma {:induction false} EveryInterleaving(capacity: nat, schedule: seq<Action>)
    requires After(Started(capacity), schedule).Some?
    ensures Invariant(After(Started(capacity), schedule).value)
    ensures After(Started(capacity), schedule).value.capacity == capacity
  {
    hide Invariant;
    hide Step;
    hide Enabled;
    if schedule == [] {
      StartedInvariant(capacity);
    } else {
      var n := |schedule| - 1;
      EveryInterleaving(capacity, schedule[..n]);
      StepKeepsInvariant(After(Started(capacity), schedule[..n]).value, schedule[n]);
    }
  }

  /** A unit is dropped exactly when a unit with its key is executing, queued or pending. */
  lemma DroppedIffPending(s: Stream)
    requires Invariant(s) && s.handler.Holding?
    ensures Checked(s).log.dropped == s.log.dropped + [s.handler.u]
            <==> exists i :: 0 <= i < |Pending(s)| && Pending(s)[i].key == s.handler.u.key
  {
  }

  /** A unit is refused only when a full queue of other units, all with different keys, is ahead of it. */
  lemma RefusedOnlyWhenFull(s: Stream)
    requires Invariant(s) && s.handler.Placing? && Enqueued(s).handler.Refused?
    ensures |s.queue| == s.capacity
    ensures forall i, j :: 0 <= i < j < |s.queue| ==> s.queue[i].key != s.queue[j].key
    ensures forall i :: 0 <= i < |s.queue| ==> s.queue[i].key != s.handler.u.key
  {
    var before := if s.worker.Working? || s.worker.Forgetting? then 1 else 0;
    var us := Pending(s);
    forall i | 0 <= i < |s.queue|
      ensures us[before + i] == s.queue[i] && before + i < |us| - 1
    {
    }
    assert us[|us| - 1] == s.handler.u;
  }

  // ----------------------------------------------------------------- progress

  /** An action a goroutine can take by itself, without new input. */
  predicate Internal(a: Action)
  {
    !a.Receive? && !a.Cancel?
  }

  function PhaseEffort(p: Phase): nat
  {
    match p
    case Exited => 0
    case Idle => 1
    case Sending(_, _) => 2
    case Forgetting(_, _) => 3
    case Refused(_) => 4
    case Working(_) => 4
    case Placing(_) => 6
    case Holding(_) => 7
  }

  /** Bound on the number of internal steps still possible. */
  function Effort(s: Stream): nat
  {
    4 * |s.queue| + PhaseEffort(s.handler) + PhaseEffort(s.worker)
  }

  predicate Settled(s: Stream)
  {
    s.handler.Idle? && s.worker.Idle? && s.queue == []
  }

  /** Each internal step lowers Effort, so the goroutines come to rest by themselves. */
  lemma InternalStepsDrain(s: Stream, a: Action)
    requires WellAnswered(s) && Internal(a) && Enabled(s, a)
    ensures Effort(Step(s, a)) < Effort(s)
  {
    hide Keys;
    hide ResultKeys;
    match a {
      case Check =>
      case Enqueue =>
      case Withdraw =>
      case Take =>
      case Execute(_, _, _) =>
      case Forget(side) =>
      case Publish(side) =>
      case Abandon(side) =>
      case Exit(side) =>
    }
  }

  /** While the context lives, they only come to rest with nothing pending. */
  lemma RestIsSettled(s: Stream)
    requires WellAnswered(s) && s.live
    requires forall a :: Internal(a) ==> !Enabled(s, a)
    ensures Settled(s)
  {
    assert !Enabled(s, Check) && !Enabled(s, Enqueue) && !Enabled(s, Withdraw) && !Enabled(s, Take);
    assert !Enabled(s, Execute(0, {}, Reply(None, None)));
    assert !Enabled(s, Forget(HandlerSide)) && !Enabled(s, Forget(WorkerSide));
    assert !Enabled(s, Publish(HandlerSide)) && !Enabled(s, Publish(WorkerSide));
  }

  /** At rest under a live context the dedup map is empty and every unit that was not dropped
      has been answered exactly once, by a result carrying its key. */
  lemma SettledAnswersAll(s: Stream)
    requires Invariant(s) && s.live && Settled(s)
    ensures s.dedup == {}
    ensures multiset(s.log.received) == multiset(s.log.dropped) + multiset(s.log.answered)
    ensures ResultKeys(s.output) == Keys(s.log.answered)
    ensures s.log.taken == s.log.accepted
  {
    assert Pending(s) == [];
    assert Keys(Pending(s)) == [];
    var received, dropped, answered := multiset(s.log.received), multiset(s.log.dropped), multiset(s.log.answered);
    forall u: Work
      ensures received[u] == dropped[u] + answered[u]
    {
      assert Count(s.log.received, u) == received[u];
      assert Count(s.log.refused, u) + Count(s.log.taken, u) == Count(s.log.answered, u) == answered[u];
    }
    assert received == dropped + answered;
  }

  /** Whatever the interleaving, every unit received under a live context that was not a
      duplicate has exactly one result in the output once the goroutines are at rest. */
  lemma EveryRunAnswersAll(capacity: nat, schedule: seq<Action>)
    requires var t := After(Started(capacity), schedule);
             t.Some? && t.value.live && Settled(t.value)
    ensures var t := After(Started(capacity), schedule).value;
            && multiset(t.log.received) == multiset(t.log.dropped) + multiset(t.log.answered)
            && ResultKeys(t.output) == Keys(t.log.answered)
            && t.log.taken == t.log.accepted
            && t.dedup == {}
  {
    EveryInterleaving(capacity, schedule);
    SettledAnswersAll(After(Started(capacity), schedule).value);
  }

  lemma AfterNext(s: Stream, schedule: seq<Action>, a: Action)
    requires After(s, schedule).Some? && Enabled(After(s, schedule).value, a)
    ensures After(s, schedule + [a]) == Some(Step(After(s, schedule).value, a))
  {
  }
}
