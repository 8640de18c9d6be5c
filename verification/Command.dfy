/** A terminal session in the source's form: the shared fields of the session, with one method
    per atomic step of the reading and of the gathering goroutine. */
module Command {
  import opened Basics
  import opened PtyModel

  class TerminalSession {
    var live: bool
    var quitClosed: bool
    ghost var closedByReader: bool
    var reader: Reader
    var bufCh: seq<Bytes>
    var gatherer: Gatherer
    var allBuf: Bytes
    var output: seq<Bytes>
    ghost var read: Bytes

    constructor ()
      ensures Now() == OPENED
    {
      live, quitClosed, closedByReader, reader := true, false, false, Reading;
      bufCh, gatherer, allBuf, output, read := [], Waiting, [], [], [];
    }

    ghost function Now(): Session
      reads this
    {
      Session(live, quitClosed, closedByReader, reader, bufCh, gatherer, allBuf, output, read)
    }

    /** Close the quit channel unless it is closed already. */
    method SendClose()
      modifies this`quitClosed
      ensures quitClosed
    {
      if quitClosed {
        return;
      }
      quitClosed := true;
    }

    // ------------------------------------------------------------- the reader

    /** One pass of the reading loop up to the hand-over: n bytes, or an error. */
    method ReadPty(data: Option<Bytes>)
      requires reader.Reading? && (data.Some? ==> |data.value| <= BUF_SIZE)
      modifies this
      ensures Now() == Step(old(Now()), if data.Some? then Read(data.value) else ReadError)
    {
      match data
      case None =>
        closedByReader := closedByReader || !quitClosed;
        reader := Failed;
        SendClose();
      case Some(buf) =>
        read := read + buf;
        reader := Holding(buf);
    }

    method StopReading()
      requires reader.Reading? && (quitClosed || !live)
      modifies this
      ensures Now() == Step(old(Now()), Action.StopReading)
    {
      reader := Stopped([]);
      SendClose();
    }

    method HandOver()
      requires reader.Holding? && |bufCh| < 1
      modifies this
      ensures Now() == Step(old(Now()), Action.HandOver)
    {
      bufCh := bufCh + [reader.data];
      reader := Reading;
    }

    method DropHeld()
      requires reader.Holding? && !live
      modifies this
      ensures Now() == Step(old(Now()), Action.DropHeld)
    {
      reader := Stopped(reader.data);
      SendClose();
    }

    // ----------------------------------------------------------- the gatherer

    method Gather()
      requires gatherer.Waiting? && bufCh != []
      modifies this
      ensures Now() == Step(old(Now()), Action.Gather)
    {
      allBuf := allBuf + bufCh[0];
      bufCh := bufCh[1..];
      if |allBuf| < BUF_SIZE {
        return;
      }
      gatherer := Sending;
    }

    method Tick()
      requires gatherer.Waiting?
      modifies this
      ensures Now() == Step(old(Now()), Action.Tick)
    {
      if |allBuf| == 0 {
        return;
      }
      gatherer := Sending;
    }

    method Emit()
      requires gatherer.Sending? || gatherer.Finishing?
      modifies this
      ensures Now() == Step(old(Now()), Send)
    {
      output := output + [allBuf];
      allBuf := [];
      gatherer := if gatherer.Sending? then Waiting else Exited;
    }

    /** Take one more item that was handed over. */
    method Drain()
      requires gatherer.Draining? && bufCh != []
      modifies this
      ensures Now() == Step(old(Now()), Action.Drain)
    {
      allBuf := allBuf + bufCh[0];
      bufCh := bufCh[1..];
    }

    /** Nothing more was handed over: write what is left, if anything. */
    method FinishDraining()
      requires gatherer.Draining? && bufCh == []
      modifies this
      ensures Now() == Step(old(Now()), Drained)
    {
      gatherer := if |allBuf| > 0 then Finishing else Exited;
    }

    /** The quit branch: drain what was handed over, then write what is left. */
    method DrainAll()
      requires gatherer.Draining? && |bufCh| <= 1
      modifies this
      ensures |old(bufCh)| == 0 ==> Now() == Step(old(Now()), Drained)
      ensures |old(bufCh)| == 1 ==> Now() == Step(Step(old(Now()), Action.Drain), Drained)
    {
      while |bufCh| > 0
        invariant |bufCh| <= |old(bufCh)| <= 1 && gatherer.Draining?
        invariant Now() == if |bufCh| == |old(bufCh)| then old(Now()) else Step(old(Now()), Action.Drain)
      {
        Drain();
      }
      FinishDraining();
    }

    // ----------------------------------------------------------- interleaving

    method Perform(a: Action)
      requires Enabled(Now(), a)
      modifies this
      ensures Now() == Step(old(Now()), a)
    {
      match a
      case Read(data) => ReadPty(Some(data));
      case ReadError => ReadPty(None);
      case StopReading => StopReading();
      case HandOver => HandOver();
      case DropHeld => DropHeld();
      case Gather => Gather();
      case Tick => Tick();
      case Send => Emit();
      case GiveUp => gatherer := GaveUp;
      case SeeClosed => gatherer := Draining;
      case Drain => Drain();
      case Drained => FinishDraining();
      case CloseSession => SendClose();
      case Cancel => live := false;
    }

    /** Any interleaving of the two goroutines: when it ends by a read error under a live
        context with the gatherer done, all that was read is in the output. */
    method Run(schedule: seq<Action>)
      requires Now() == OPENED && After(OPENED, schedule).Some?
      modifies this
      ensures Some(Now()) == After(OPENED, schedule)
      ensures Intact(Now())
      ensures live && closedByReader && gatherer.Exited? ==> Concat(output) == read
    {
      for i := 0 to |schedule|
        invariant After(OPENED, schedule[..i]) == Some(Now())
      {
        PrefixPossible(OPENED, schedule, i + 1);
        assert schedule[..i + 1][..i] == schedule[..i];
        Perform(schedule[i]);
      }
      assert schedule[..|schedule|] == schedule;
      EverySession(schedule);
      if live && closedByReader && gatherer.Exited? {
        AllWritten(schedule);
      }
    }
  }

  lemma {:induction false} PrefixPossible(s: Session, schedule: seq<Action>, i: nat)
    requires i <= |schedule| && After(s, schedule).Some?
    ensures After(s, schedule[..i]).Some?
  {
    if i < |schedule| {
      assert schedule[..|schedule| - 1][..i] == schedule[..i];
      PrefixPossible(s, schedule[..|schedule| - 1], i);
    } else {
      assert schedule[..i] == schedule;
    }
  }
}
