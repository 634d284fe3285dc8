/** The two .NET streams together: what is written through one comes back through the other. */
module RoundTrip {
  import opened Common
  import O = OutputStream
  import I = InputStream
  import C = CoreReader

  /** The data of all writes of a run. */
  function Written(run: seq<O.Event>): seq<Byte> {
    if run == [] then []
    else Written(run[..|run| - 1]) + if run[|run| - 1].call.Write? then run[|run| - 1].call.source else []
  }

  predicate AllOk(run: seq<O.Event>) {
    forall i | 0 <= i < |run| :: run[i].result.Ok?
  }

  lemma {:induction false} OkRunsTakeEverything(size: nat, states: seq<O.State>, run: seq<O.Event>)
    requires size > 0 && O.IsRun(size, states, run) && AllOk(run)
    ensures O.TakenBy(run) == Written(run)
    decreases |run|
  {
    if run != [] {
      var n := |run| - 1;
      O.RunFront(size, states, run);
      assert run[n].result.Ok?;
      OkRunsTakeEverything(size, states[..n + 1], run[..n]);
      if run[n].call.Write? {
        var source := run[n].call.source;
        assert source[..|source|] == source;
      }
    }
  }

  /**
    For every buffer size, every split into writes and flushes, every cut of the file into native chunks that
    are not empty, and every choice of read sizes: when the output stream was closed, reading until a read
    returns nothing gives back the bytes that the output stream took, also if flushes failed and were
    repeated; if no call failed, these are all bytes that were written.
    */
  lemma {:induction false} RoundTrip(size: nat, states: seq<O.State>, writing: seq<O.Event>,
                  chunks: seq<seq<Byte>>, sources: seq<I.Source>, reading: seq<I.Event>)
    requires size > 0 && O.IsRun(size, states, writing) && states[|writing|].closed
    // the file holds what the native writer accepted, and the iterator cuts it into non-empty chunks
    requires Flatten(chunks) == Flatten(states[|writing|].pipe.sent)
    requires forall i | 0 <= i < |chunks| :: chunks[i] != []
    requires I.IsRun(sources, reading) && sources[0] == I.Source([], chunks, C.Unopened)
    requires I.NothingThrown(reading) && I.EndsEmpty(reading)
    ensures I.Returned(reading, |reading|) == O.TakenBy(writing)
    ensures AllOk(writing) ==> I.Returned(reading, |reading|) == Written(writing)
  {
    O.Conservation(size, states, writing);
    if AllOk(writing) {
      OkRunsTakeEverything(size, states, writing);
    }
    NoEmptyChunkAhead(chunks);
    I.ReadToEnd(sources, reading);
  }

  lemma {:induction false} NoEmptyChunkAhead(chunks: seq<seq<Byte>>)
    requires forall i | 0 <= i < |chunks| :: chunks[i] != []
    ensures I.BehindEmpty(chunks) == []
  {
    if chunks != [] {
      NoEmptyChunkAhead(chunks[1..]);
    }
  }
}
