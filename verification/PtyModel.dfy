/** Reading a terminal session: one goroutine reads, another gathers what was read into
    larger messages; both end when the session does. */
module PtyModel {
  import opened Basics

  type Bytes = seq<int>

  const BUF_SIZE := 1024

  /** The reading goroutine. */
  datatype Reader =
    | Reading
    | Holding(data: Bytes)     // about to hand over what it read
    | Failed                   // ended by a read error
    | Stopped(lost: Bytes)     // ended by the context or by someone else closing the session

  /** The gathering goroutine. */
  datatype Gatherer =
    | Waiting
    | Sending                  // about to write its buffer to the output
    | Draining                 // saw that the session is closed
    | Finishing                // drained, about to write what is left
    | Exited                   // everything written
    | GaveUp                   // the context was cancelled while it was writing

  /** bufCh holds at most one item; closed: the quit channel is closed; closedByReader: it was
      closed by a read error. */
  datatype Session = Session(
    live: bool, closed: bool, closedByReader: bool, reader: Reader, bufCh: seq<Bytes>, gatherer: Gatherer,
    allBuf: Bytes, output: seq<Bytes>, read: Bytes)

  const OPENED := Session(true, false, false, Reading, [], Waiting, [], [], [])

  datatype Action =
    | Read(data: Bytes)
    | ReadError
    | StopReading              // the reader notices the closed session or context
    | HandOver
    | DropHeld                 // the hand-over select chose the cancelled context
    | Gather
    | Tick                     // 20 milliseconds without anything to gather
    | Send
    | GiveUp                   // the output select chose the cancelled context
    | SeeClosed
    | Drain
    | Drained
    | CloseSession             // someone else closes the session
    | Cancel

  predicate Enabled(s: Session, a: Action)
  {
    match a
    case Read(data) => s.reader.Reading? && |data| <= BUF_SIZE
    case ReadError => s.reader.Reading?
    case StopReading => s.reader.Reading? && (s.closed || !s.live)
    case HandOver => s.reader.Holding? && |s.bufCh| < 1
    case DropHeld => s.reader.Holding? && !s.live
    case Gather => s.gatherer.Waiting? && s.bufCh != []
    case Tick => s.gatherer.Waiting?
    case Send => s.gatherer.Sending? || s.gatherer.Finishing?
    case GiveUp => (s.gatherer.Sending? || s.gatherer.Finishing?) && !s.live
    case SeeClosed => s.gatherer.Waiting? && s.closed
    case Drain => s.gatherer.Draining? && s.bufCh != []
    case Drained => s.gatherer.Draining? && s.bufCh == []
    case CloseSession => true
    case Cancel => true
  }

  function Step(s: Session, a: Action): Session
    requires Enabled(s, a)
  {
    match a
    case Read(data) => s.(reader := Holding(data), read := s.read + data)
    case ReadError => s.(reader := Failed, closedByReader := s.closedByReader || !s.closed, closed := true)
    case StopReading => s.(reader := Stopped([]), closed := true)
    case HandOver => s.(reader := Reading, bufCh := s.bufCh + [s.reader.data])
    case DropHeld => s.(reader := Stopped(s.reader.data), closed := true)
    case Gather =>
      var buf := s.allBuf + s.bufCh[0];
      s.(allBuf := buf, bufCh := s.bufCh[1..], gatherer := if |buf| < BUF_SIZE then Waiting else Sending)
    case Tick => if s.allBuf == [] then s else s.(gatherer := Sending)
    case Send =>
      s.(output := s.output + [s.allBuf], allBuf := [], gatherer := if s.gatherer.Sending? then Waiting else Exited)
    case GiveUp => s.(gatherer := GaveUp)
    case SeeClosed => s.(gatherer := Draining)
    case Drain => s.(allBuf := s.allBuf + s.bufCh[0], bufCh := s.bufCh[1..])
    case Drained => s.(gatherer := if s.allBuf == [] then Exited else Finishing)
    case CloseSession => s.(closed := true)
    case Cancel => s.(live := false)
  }

  function After(s: Session, schedule: seq<Action>): Option<Session>
  {
    if schedule == [] then Some(s)
    else
      var n := |schedule| - 1;
      match After(s, schedule[..n])
      case None => None
      case Some(t) => if Enabled(t, schedule[n]) then Some(Step(t, schedule[n])) else None
  }

  function InReader(r: Reader): Bytes
  {
    match r
    case Holding(data) => data
    case Stopped(lost) => lost
    case _ => []
  }

  /** All bytes read are, once and in order: written, gathered, handed over, or with the reader. */
  predicate Intact(s: Session)
  {
    s.read == Concat(s.output) + s.allBuf + Concat(s.bufCh) + InReader(s.reader)
  }

  /** The buffer waits only below the limit; messages are not empty and, but for the last one of
      a session, of bounded size. */
  predicate Sized(s: Session)
  {
    && |s.bufCh| <= 1
    && (s.reader.Holding? ==> |s.reader.data| <= BUF_SIZE)
    && (s.bufCh != [] ==> |s.bufCh[0]| <= BUF_SIZE)
    && (s.gatherer.Waiting? ==> |s.allBuf| < BUF_SIZE)
    && (s.gatherer.Sending? ==> 0 < |s.allBuf| < 2 * BUF_SIZE)
    && (s.gatherer.Finishing? ==> s.allBuf != [])
    && (s.gatherer.Exited? ==> s.allBuf == [])
    && (forall i :: 0 <= i < |s.output| ==>
          && s.output[i] != []
          && (|s.output[i]| < 2 * BUF_SIZE || (i == |s.output| - 1 && s.gatherer.Exited?)))
  }

  /** While the context lives, a session that only a read error has closed still has its reader
      until then; and once drained after that nothing is left to hand over. */
  predicate Orderly(s: Session)
  {
    && (s.closedByReader ==> s.closed && s.reader.Failed?)
    && (s.live && s.reader.Stopped? ==> s.closed && !s.closedByReader)
    && (s.closedByReader && (s.gatherer.Finishing? || s.gatherer.Exited?) ==> s.bufCh == [])
    && (s.live ==> !s.gatherer.GaveUp?)
    && (!s.closed ==> s.gatherer.Waiting? || s.gatherer.Sending? || s.gatherer.GaveUp?)
  }

  lemma StepIntact(s: Session, a: Action)
    requires Intact(s) && Sized(s) && Enabled(s, a)
    ensures Intact(Step(s, a))
  {
    var w, b, c, h := Concat(s.output), s.allBuf, Concat(s.bufCh), InReader(s.reader);
    hide Concat;
    match a
    case Read(data) => assert w + b + c + [] + data == w + b + c + data;
    case HandOver =>
      ConcatNone<int>();
      ConcatAppend(s.bufCh, s.reader.data);
      assert w + b + c + h == w + b + (c + h) + [];
    case Gather =>
      ConcatOne(s.bufCh);
      assert w + b + c + h == w + (b + c) + [] + h;
    case Drain =>
      ConcatOne(s.bufCh);
      assert w + b + c + h == w + (b + c) + [] + h;
    case Send =>
      ConcatAppend(s.output, b);
      assert w + b + c + h == (w + b) + [] + c + h;
    case _ =>
  }

  lemma ConcatNone<T>()
    ensures Concat<T>([]) == []
  {
  }

  lemma ConcatOne<T>(xss: seq<seq<T>>)
    requires |xss| == 1
    ensures Concat(xss) == xss[0] && Concat(xss[1..]) == []
  {
  }

  lemma ReaderSized(s: Session, a: Action)
    requires Sized(s) && Enabled(s, a) && (a.Read? || a.ReadError? || a.StopReading? || a.HandOver? || a.DropHeld?)
    ensures Sized(Step(s, a))
  {
  }

  lemma GatherSized(s: Session, a: Action)
    requires Sized(s) && Enabled(s, a) && (a.Gather? || a.Drain?)
    ensures Sized(Step(s, a))
  {
  }

  lemma SendSized(s: Session)
    requires Sized(s) && Enabled(s, Send)
    ensures Sized(Step(s, Send))
  {
    var n := |s.output|;
    assert forall i :: 0 <= i < n ==> (s.output + [s.allBuf])[i] == s.output[i];
  }

  lemma QuietSized(s: Session, a: Action)
    requires Sized(s) && Enabled(s, a)
    requires a.Tick? || a.GiveUp? || a.SeeClosed? || a.Drained? || a.CloseSession? || a.Cancel?
    ensures Sized(Step(s, a))
  {
  }

  lemma StepSized(s: Session, a: Action)
    requires Sized(s) && Enabled(s, a)
    ensures Sized(Step(s, a))
  {
    hide Sized;
    hide Step;
    hide Enabled;
    if a.Read? || a.ReadError? || a.StopReading? || a.HandOver? || a.DropHeld? {
      ReaderSized(s, a);
    } else if a.Gather? || a.Drain? {
      GatherSized(s, a);
    } else if a.Send? {
      SendSized(s);
    } else {
      QuietSized(s, a);
    }
  }

  lemma StepOrderly(s: Session, a: Action)
    requires Orderly(s) && Sized(s) && Enabled(s, a)
    ensures Orderly(Step(s, a))
  {
  }

  /** Whatever the interleaving, no byte is lost, repeated or reordered on the way. */
  lemma {:induction false} EverySession(schedule: seq<Action>)
    requires After(OPENED, schedule).Some?
    ensures var s := After(OPENED, schedule).value; Intact(s) && Sized(s) && Orderly(s)
  {
    hide Intact;
    hide Sized;
    hide Orderly;
    hide Step;
    hide Enabled;
    if schedule == [] {
      OpenedInvariant();
    } else {
      var n := |schedule| - 1;
      EverySession(schedule[..n]);
      var t := After(OPENED, schedule[..n]).value;
      StepIntact(t, schedule[n]);
      StepSized(t, schedule[n]);
      StepOrderly(t, schedule[n]);
    }
  }

  lemma OpenedInvariant()
    ensures Intact(OPENED) && Sized(OPENED) && Orderly(OPENED)
  {
  }

  /** When the session ends by a read error and the context stays live, everything that was
      read has been written by the time the gatherer is done. */
  lemma AllWritten(schedule: seq<Action>)
    requires var t := After(OPENED, schedule);
             t.Some? && t.value.live && t.value.closedByReader && t.value.gatherer.Exited?
    ensures var s := After(OPENED, schedule).value; Concat(s.output) == s.read
  {
    EverySession(schedule);
    var s := After(OPENED, schedule).value;
    ConcatNone<int>();
    assert Concat(s.output) + [] + [] + [] == Concat(s.output);
  }

  /** However the session ends: once the gatherer is done, everything that was read has been
      written if and only if no byte is left handed over or with the reader. */
  lemma WrittenIff(schedule: seq<Action>)
    requires After(OPENED, schedule).Some? && After(OPENED, schedule).value.gatherer.Exited?
    ensures var s := After(OPENED, schedule).value;
            Concat(s.output) == s.read <==> Concat(s.bufCh) == [] && InReader(s.reader) == []
  {
    EverySession(schedule);
    var s := After(OPENED, schedule).value;
    var w, c, h := Concat(s.output), Concat(s.bufCh), InReader(s.reader);
    assert s.allBuf == [] && s.read == w + [] + c + h;
    hide Concat;
    assert |w + [] + c + h| == |w| + |c| + |h|;
    if c == [] && h == [] {
      assert w + [] + [] + [] == w;
    }
  }

  /** A step of either goroutine that needs nothing from outside. */
  predicate Internal(a: Action)
  {
    !a.Read? && !a.ReadError? && !a.CloseSession? && !a.Cancel?
  }

  /** While a session is open under a live context, once nothing changes any more without new
      input, ticks included, everything that was read has been written. */
  lemma QuietIsWritten(schedule: seq<Action>)
    requires After(OPENED, schedule).Some?
    requires var s := After(OPENED, schedule).value;
             s.live && !s.closed && forall a :: Internal(a) && Enabled(s, a) ==> Step(s, a) == s
    ensures Concat(After(OPENED, schedule).value.output) == After(OPENED, schedule).value.read
  {
    EverySession(schedule);
    var s := After(OPENED, schedule).value;
    hide After;
    QuietIsEmpty(s);
    hide Concat;
    hide Step;
    hide Enabled;
    ConcatNone<int>();
    NothingWaits(Concat(s.output));
  }

  lemma QuietIsEmpty(s: Session)
    requires Sized(s) && Orderly(s) && s.live && !s.closed
    requires forall a :: Internal(a) && Enabled(s, a) ==> Step(s, a) == s
    ensures s.bufCh == [] && s.allBuf == [] && InReader(s.reader) == []
  {
    StepsChange(s);
    assert Internal(Send) && Internal(Tick) && Internal(Action.Gather) && Internal(HandOver);
    hide Step;
  }

  /** Each of these steps changes the state when it is possible, the tick when bytes are waiting. */
  lemma StepsChange(s: Session)
    ensures Enabled(s, Send) ==> Step(s, Send) != s
    ensures Enabled(s, Action.Gather) ==> Step(s, Action.Gather) != s
    ensures Enabled(s, HandOver) ==> Step(s, HandOver) != s
    ensures Enabled(s, Tick) && s.allBuf != [] ==> Step(s, Tick) != s
  {
    if Enabled(s, Send) { assert |Step(s, Send).output| == |s.output| + 1; }
    if Enabled(s, Action.Gather) { assert |Step(s, Action.Gather).bufCh| == |s.bufCh| - 1; }
  }

  lemma NothingWaits(w: Bytes)
    ensures w + [] + [] + [] == w
  {
  }

  lemma AfterNext(s: Session, schedule: seq<Action>, a: Action)
    requires After(s, schedule).Some? && Enabled(After(s, schedule).value, a)
    ensures After(s, schedule + [a]) == Some(Step(After(s, schedule).value, a))
  {
  }

  /** Closed by anyone else, a session can end under a live context with output unwritten. */
  lemma ClosedEarlyLoses(data: Bytes) returns (schedule: seq<Action>)
    requires 0 < |data| <= BUF_SIZE
    ensures var t := After(OPENED, schedule);
            && t.Some? && t.value.live && t.value.reader.Stopped? && t.value.gatherer.Exited?
            && t.value.read == data && t.value.output == []
  {
    hide After;
    schedule := [];
    var s := OPENED;
    assert After(OPENED, schedule) == Some(s) by { AfterNone(); }
    var steps := [CloseSession, SeeClosed, Drained, Read(data), HandOver, StopReading];
    for i := 0 to |steps|
      invariant schedule == steps[..i] && After(OPENED, schedule).Some?
      invariant var t := After(OPENED, schedule).value;
                t == (if i == 0 then OPENED
                      else if i == 1 then OPENED.(closed := true)
                      else if i == 2 then OPENED.(closed := true, gatherer := Draining)
                      else if i == 3 then OPENED.(closed := true, gatherer := Exited)
                      else if i == 4 then OPENED.(closed := true, gatherer := Exited, read := data, reader
                          := Holding(data))
                      else if i == 5 then OPENED.(closed := true, gatherer := Exited, read := data, bufCh := [data])
                      else OPENED.(closed := true, gatherer := Exited, read := data, bufCh := [data], reader
                          := Stopped([])))
    {
      AfterNext(OPENED, schedule, steps[i]);
      schedule := schedule + [steps[i]];
    }
  }

  lemma AfterNone()
    ensures After(OPENED, []) == Some(OPENED)
  {
  }
}
