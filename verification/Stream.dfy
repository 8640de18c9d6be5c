/** The stream plugin in the source's form. */
module Stream {
  import opened Basics
  import opened StreamBatches
  import opened StreamModel
  import Text

  /** One stream's batch loop: its sequence number and its output. */
  class BatchStream<T(==)> {
    const batchSize: int
    var seqNo: nat
    var outCh: seq<Sent<T>>

    constructor (batchSize: int)
      ensures this.batchSize == batchSize && seqNo == 0 && outCh == []
    {
      this.batchSize, seqNo, outCh := batchSize, 0, [];
    }

    /** The loop over the ticks until the context is cancelled; returns what was never sent. */
    method Run(outs: seq<Option<seq<T>>>) returns (outBuf: seq<T>)
      requires seqNo == 0 && outCh == []
      modifies this
      ensures var b := TickedAll(batchSize, outs); outBuf == b.outBuf && seqNo == b.next && outCh == b.sent
      ensures Payloads(outCh) + outBuf == Collected(outs) && seqNo == |outCh|
      ensures PayloadList(outCh) == NonEmpties(Groups(Successes(outs), Width(batchSize)))
    {
      outBuf := [];
      var collected: nat := 0;
      for i := 0 to |outs|
        invariant Batch(outBuf, collected, seqNo, outCh) == TickedAll(batchSize, outs[..i])
      {
        assert outs[..i + 1][..i] == outs[..i];
        if outs[i] == None {
          continue;
        }
        collected := collected + 1;
        outBuf := outBuf + outs[i].value;
        if collected >= batchSize {
          if |outBuf| == 0 {
            collected := 0;
            continue;
          }
          outCh := outCh + [Sent(seqNo, outBuf)];
          outBuf := [];
          seqNo := seqNo + 1;
          collected := 0;
        }
      }
      assert outs[..|outs|] == outs;
      BatchesConserve(batchSize, outs);
      BatchesAreGroups(batchSize, outs);
    }
  }

  /** The registry of streams. */
  class StreamPlugin {
    var streams: map<string, Handle>
    var streamTypes: map<string, Handle>
    var live: set<Handle>
    var started: nat

    constructor ()
      ensures Now() == NO_STREAMS
    {
      streams, streamTypes, live, started := map[], map[], {}, 0;
    }

    function Now(): Registry
      reads this
    {
      Registry(streams, streamTypes, live, started)
    }

    /** Start a stream unless one of its name is registered, cancelling the last one of its type. */
    method StartStream(name: string) returns (fresh_: bool)
      modifies this
      ensures Now() == Started(old(Now()), name) && fresh_ == (name !in old(streams))
    {
      var streamType := Text.Split(Text.Split(name, ":")[0], ",")[0];
      if name in streams {
        return false;
      }
      if streamType in streamTypes {
        live := live - {streamTypes[streamType]};
      }
      var s := Handle(started, name);
      streams := streams[name := s];
      streamTypes := streamTypes[streamType := s];
      live := live + {s};
      started := started + 1;
      fresh_ := true;
    }

    method CloseStream(name: string)
      modifies this
      ensures Now() == Closed(old(Now()), name)
    {
      if name in streams {
        live := live - {streams[name]};
      }
    }

    /** A stream's loop ends and takes its name off the registry. */
    method StreamEnded(s: Handle)
      modifies this
      ensures Now() == Finished(old(Now()), s)
    {
      streams := streams - {s.name};
      live := live - {s};
    }
  }
}
