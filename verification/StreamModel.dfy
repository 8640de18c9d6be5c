/** Streams: batching of collected output into numbered messages, and the registry of
    running streams. */
module StreamModel {
  import opened Basics
  import Text

  // ---------------------------------------------------------------- batch loop

  datatype Sent<T> = Sent(sequence: nat, payload: seq<T>)

  /** The batch loop between two ticks: collected output not yet sent, collections since the
      last message, next sequence number, messages sent. */
  datatype Batch<T> = Batch(outBuf: seq<T>, collected: nat, next: nat, sent: seq<Sent<T>>)

  function Empty<T>(): Batch<T>
  {
    Batch([], 0, 0, [])
  }

  /** One tick; a collection that failed is None. */
  function Ticked<T>(b: Batch<T>, size: int, out: Option<seq<T>>): Batch<T>
  {
    if out == None then b
    else
      var buf := b.outBuf + out.value;
      if b.collected + 1 < size then b.(outBuf := buf, collected := b.collected + 1)
      else if buf == [] then b.(collected := 0)
      else Batch([], 0, b.next + 1, b.sent + [Sent(b.next, buf)])
  }

  function TickedAll<T>(size: int, outs: seq<Option<seq<T>>>): Batch<T>
  {
    if outs == [] then Empty() else Ticked(TickedAll(size, outs[..|outs| - 1]), size, outs[|outs| - 1])
  }

  /** Everything the collections returned, in order. */
  function Collected<T>(outs: seq<Option<seq<T>>>): seq<T>
  {
    if outs == [] then []
    else Collected(outs[..|outs| - 1]) + (match outs[|outs| - 1] case None => [] case Some(o) => o)
  }

  function Payloads<T>(sent: seq<Sent<T>>): seq<T>
  {
    if sent == [] then [] else Payloads(sent[..|sent| - 1]) + sent[|sent| - 1].payload
  }

  lemma PayloadsAppend<T>(sent: seq<Sent<T>>, m: Sent<T>)
    ensures Payloads(sent + [m]) == Payloads(sent) + m.payload
  {
  }

  /** Messages are not empty and are numbered 0, 1, 2, ...; fewer collections than a batch
      wait unsent. */
  predicate InStep<T(==)>(b: Batch<T>, size: int)
  {
    && b.next == |b.sent|
    && (forall i :: 0 <= i < |b.sent| ==> b.sent[i].sequence == i && b.sent[i].payload != [])
    && (b.collected == 0 || b.collected < size)
    && (b.outBuf != [] ==> b.collected > 0)
  }

  lemma TickInStep<T>(b: Batch<T>, size: int, out: Option<seq<T>>)
    requires InStep(b, size)
    ensures InStep(Ticked(b, size, out), size)
  {
  }

  lemma TickConserves<T>(b: Batch<T>, size: int, out: seq<T>)
    ensures var t := Ticked(b, size, Some(out)); Payloads(t.sent) + t.outBuf == Payloads(b.sent) + b.outBuf + out
  {
    var buf := b.outBuf + out;
    PayloadsAppend(b.sent, Sent(b.next, buf));
    hide Payloads;
    assert Payloads(b.sent) + b.outBuf + out == Payloads(b.sent) + buf == Payloads(b.sent) + buf + [];
  }

  lemma TickNone<T>(b: Batch<T>, size: int)
    ensures Ticked(b, size, None) == b
  {
  }

  /** The messages and the buffer hold all that was collected, once and in order. */
  lemma {:induction false} BatchesConserve<T>(size: int, outs: seq<Option<seq<T>>>)
    ensures var b := TickedAll(size, outs); InStep(b, size) && Payloads(b.sent) + b.outBuf == Collected(outs)
  {
    if outs != [] {
      var n := |outs| - 1;
      hide Payloads;
      hide Ticked;
      hide InStep;
      BatchesConserve(size, outs[..n]);
      var b := TickedAll(size, outs[..n]);
      TickInStep(b, size, outs[n]);
      if outs[n].Some? {
        TickConserves(b, size, outs[n].value);
      } else {
        TickNone(b, size);
        assert Collected(outs[..n]) + [] == Collected(outs[..n]);
      }
    }
  }

  // ---------------------------------------------------------- running streams

  /** A started stream. */
  datatype Handle = Handle(id: nat, name: string)

  /** The part of a stream's name that decides which streams displace each other. */
  function TypeOf(name: string): string
  {
    Text.Split(Text.Split(name, ":")[0], ",")[0]
  }

  /** Streams registered by name and by type, those whose context is not cancelled, and the
      number of streams started so far. */
  datatype Registry = Registry(streams: map<string, Handle>, types: map<string, Handle>, live: set<Handle>,
      started: nat)

  const NO_STREAMS := Registry(map[], map[], {}, 0)

  datatype Request =
    | Start(name: string)
    | Close(name: string)
    | Ended(s: Handle)     // the stream's own loop ends, by cancellation or by an error of its own

  function Started(r: Registry, name: string): Registry
  {
    if name in r.streams then r
    else
      var s, t := Handle(r.started, name), TypeOf(name);
      Registry(r.streams[name := s], r.types[t := s],
               (if t in r.types then r.live - {r.types[t]} else r.live) + {s}, r.started + 1)
  }

  function Closed(r: Registry, name: string): Registry
  {
    if name in r.streams then r.(live := r.live - {r.streams[name]}) else r
  }

  function Finished(r: Registry, s: Handle): Registry
  {
    r.(streams := r.streams - {s.name}, live := r.live - {s})
  }

  /** Only a stream that was started and has not ended can end. */
  predicate Possible(r: Registry, q: Request)
  {
    q.Ended? ==> q.s.name in r.streams && r.streams[q.s.name] == q.s
  }

  function Step(r: Registry, q: Request): Registry
  {
    match q
    case Start(name) => Started(r, name)
    case Close(name) => Closed(r, name)
    case Ended(s) => Finished(r, s)
  }

  function Requested(r: Registry, qs: seq<Request>): Option<Registry>
  {
    if qs == [] then Some(r)
    else match Requested(r, qs[..|qs| - 1])
      case None => None
      case Some(d) => if Possible(d, qs[|qs| - 1]) then Some(Step(d, qs[|qs| - 1])) else None
  }

  /** A live stream is the one registered under its name and under its type, so there is at
      most one per type; a registered stream has the name it is registered under. */
  ghost predicate Exclusive(r: Registry)
  {
    && (forall s :: s in r.live ==> s.name in r.streams && r.streams[s.name] == s)
    && (forall s :: s in r.live ==> TypeOf(s.name) in r.types && r.types[TypeOf(s.name)] == s)
    && (forall n :: n in r.streams ==> r.streams[n].name == n && r.streams[n].id < r.started)
    && (forall t :: t in r.types ==> TypeOf(r.types[t].name) == t && r.types[t].id < r.started)
  }

  lemma {:induction false} AlwaysExclusive(qs: seq<Request>)
    requires Requested(NO_STREAMS, qs).Some?
    ensures Exclusive(Requested(NO_STREAMS, qs).value)
  {
    hide TypeOf;
    if qs != [] {
      AlwaysExclusive(qs[..|qs| - 1]);
      StepExclusive(Requested(NO_STREAMS, qs[..|qs| - 1]).value, qs[|qs| - 1]);
    }
  }

  lemma StepExclusive(r: Registry, q: Request)
    requires Exclusive(r) && Possible(r, q)
    ensures Exclusive(Step(r, q))
  {
    hide TypeOf;
  }

  /** Never two live streams of one type. */
  lemma {:induction false} OnePerType(qs: seq<Request>, s: Handle, s': Handle)
    requires Requested(NO_STREAMS, qs).Some?
    requires s in Requested(NO_STREAMS, qs).value.live && s' in Requested(NO_STREAMS, qs).value.live
    requires TypeOf(s.name) == TypeOf(s'.name)
    ensures s == s'
  {
    AlwaysExclusive(qs);
  }

  /** A start opens a live stream if and only if no stream of that name is still registered;
      one that was closed but has not ended yet swallows it. */
  lemma StartOpensIff(r: Registry, name: string)
    requires Exclusive(r)
    ensures (exists s :: s in Started(r, name).live && s !in r.live) <==> name !in r.streams
    ensures name in r.streams ==> Started(r, name) == r
  {
    if name !in r.streams {
      var s := Handle(r.started, name);
      assert s in Started(r, name).live && s !in r.live;
    }
  }

  // ----------------------------------------------------- what requests do to streams

  /** Which streams are live after a request: a start adds its own and cancels the others of its
      type, a close cancels the one of its name, an end takes out the one that ended. */
  lemma LiveAfterIff(r: Registry, q: Request, s: Handle)
    requires Exclusive(r) && Possible(r, q)
    ensures s in Step(r, q).live <==>
              match q
              case Start(name) =>
                if name in r.streams then s in r.live
                else s == Handle(r.started, name) || (s in r.live && TypeOf(s.name) != TypeOf(name))
              case Close(name) => s in r.live && s.name != name
              case Ended(h) => s in r.live && s != h
  {
    hide TypeOf;
  }

  /** Which names are taken after it: a start takes its name, and only the end of its stream
      frees it again. */
  lemma TakenAfterIff(r: Registry, q: Request, name: string)
    requires Exclusive(r) && Possible(r, q)
    ensures name in Step(r, q).streams <==>
              (name in r.streams || q == Start(name)) && !(q.Ended? && q.s.name == name)
  {
    hide TypeOf;
  }

  /** The type of a stream is its name up to the first colon or comma. */
  lemma TypeIsPrefix(name: string)
    ensures TypeOf(name) <= name
    ensures ':' !in TypeOf(name) && ',' !in TypeOf(name)
    ensures |TypeOf(name)| < |name| ==> name[|TypeOf(name)|] == ':' || name[|TypeOf(name)|] == ','
  {
    FirstPart(name, ":", ':');
    FirstPart(Text.Split(name, ":")[0], ",", ',');
  }

  lemma FirstPart(s: string, sep: string, c: char)
    requires sep == [c]
    ensures var part := Text.Split(s, sep)[0];
            part <= s && c !in part && (|part| < |s| ==> s[|part|] == c)
  {
    var i := Text.Find(s, sep, 0);
    forall j: nat | j < |s| && (i == -1 || j < i)
      ensures s[j] != c
    {
      assert !Text.At(s, sep, j);
      assert s[j..j + 1] == [s[j]];
    }
    if i != -1 {
      Text.AtChar(s, sep, i, 0);
    }
  }
}
