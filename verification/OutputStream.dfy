/**
  `OperatorOutputStream` of the .NET binding: writes go through a fixed buffer to a native writer.

  A native write is all or nothing, and any native call may fail. The class at the end is the code;
  `Step` says what one call does, and the lemmas are about runs of calls.
  */
module OutputStream {
  import opened Common

  /** Bytes waiting in the buffer, and the payloads that the native writer accepted. */
  datatype Pipe = Pipe(buf: seq<Byte>, sent: seq<seq<Byte>>)

  function Flushed(p: Pipe): Pipe {
    if p.buf == [] then p else Pipe([], p.sent + [p.buf])
  }

  /** One byte goes in; a full buffer is sent first. */
  function PutByte(size: nat, p: Pipe, b: Byte): (r: Pipe)
    requires size > 0 && |p.buf| <= size
    ensures 0 < |r.buf| <= size
  {
    if |p.buf| == size then Pipe([b], p.sent + [p.buf]) else Pipe(p.buf + [b], p.sent)
  }

  /** `Write` when no native write fails, byte by byte. */
  function Put(size: nat, p: Pipe, source: seq<Byte>): (r: Pipe)
    requires size > 0 && |p.buf| <= size
    ensures |r.buf| <= size
    decreases |source|
  {
    if source == [] then p
    else PutByte(size, Put(size, p, source[..|source| - 1]), source[|source| - 1])
  }

  /** Everything that went in, in order. */
  function Through(p: Pipe): seq<Byte> {
    Flatten(p.sent) + p.buf
  }

  lemma PutLast(size: nat, p: Pipe, source: seq<Byte>, b: Byte)
    requires size > 0 && |p.buf| <= size
    ensures Put(size, p, source + [b]) == PutByte(size, Put(size, p, source), b)
  {
    assert (source + [b])[..|source|] == source;
  }

  /** Two writes are one. */
  lemma {:induction false} PutConcat(size: nat, p: Pipe, a: seq<Byte>, b: seq<Byte>)
    requires size > 0 && |p.buf| <= size
    ensures Put(size, p, a + b) == Put(size, Put(size, p, a), b)
    decreases |b|
  {
    if b == [] {
      assert a + b == a;
    } else {
      var front, last := b[..|b| - 1], b[|b| - 1];
      PutConcat(size, p, a, front);
      assert a + b == (a + front) + [last];
      PutLast(size, p, a + front, last);
    }
  }

  /** What fits is appended. */
  lemma {:induction false} PutFits(size: nat, p: Pipe, part: seq<Byte>)
    requires size > 0 && |p.buf| + |part| <= size
    ensures Put(size, p, part) == Pipe(p.buf + part, p.sent)
    decreases |part|
  {
    if part != [] {
      var front, last := part[..|part| - 1], part[|part| - 1];
      PutFits(size, p, front);
      assert p.buf + part == (p.buf + front) + [last];
    }
  }

  /** Behind a full buffer it makes no difference whether that was sent already. */
  lemma {:induction false} PutBehindFull(size: nat, p: Pipe, part: seq<Byte>)
    requires size > 0 && |p.buf| == size && part != []
    ensures Put(size, p, part) == Put(size, Flushed(p), part)
    decreases |part|
  {
    var front, last := part[..|part| - 1], part[|part| - 1];
    if front != [] {
      PutBehindFull(size, p, front);
    } else {
      assert [] + [last] == [last];
    }
  }

  // ---------- The payloads depend on the data only ----------

  /** `data` cut into full blocks, with a last block that is not empty if there are others. */
  function Blocks(size: nat, data: seq<Byte>): (r: Pipe)
    requires size > 0
    ensures |r.buf| <= size
    decreases |data|
  {
    if |data| <= size then Pipe(data, [])
    else
      var rest := Blocks(size, data[size..]);
      Pipe(rest.buf, [data[..size]] + rest.sent)
  }

  lemma {:induction false} BlocksThrough(size: nat, data: seq<Byte>)
    requires size > 0
    ensures Through(Blocks(size, data)) == data
    decreases |data|
  {
    if |data| > size {
      var head, tail := data[..size], data[size..];
      var rest := Blocks(size, tail);
      calc {
        Through(Blocks(size, data));
        Flatten([head] + rest.sent) + rest.buf;
        { FlattenCons(head, rest.sent); }
        (head + Flatten(rest.sent)) + rest.buf;
        { Associative(head, Flatten(rest.sent), rest.buf); }
        head + Through(rest);
        { BlocksThrough(size, tail); }
        head + tail;
        data;
      }
    }
  }

  lemma {:induction false} BlocksShape(size: nat, data: seq<Byte>)
    requires size > 0
    ensures var p := Blocks(size, data);
            (data != [] ==> p.buf != []) && forall i | 0 <= i < |p.sent| :: |p.sent[i]| == size
    decreases |data|
  {
    if |data| > size {
      BlocksShape(size, data[size..]);
    }
  }

  lemma {:induction false} BlocksCount(size: nat, data: seq<Byte>)
    requires size > 0
    ensures |data| == |Blocks(size, data).sent| * size + |Blocks(size, data).buf|
    decreases |data|
  {
    if |data| > size {
      BlocksCount(size, data[size..]);
      var k := |Blocks(size, data[size..]).sent|;
      assert (k + 1) * size == k * size + size;
    }
  }

  lemma {:induction false} BlocksByte(size: nat, data: seq<Byte>, b: Byte)
    requires size > 0
    ensures Blocks(size, data + [b]) == PutByte(size, Blocks(size, data), b)
    decreases |data|
  {
    var longer := data + [b];
    if |data| == size {
      assert longer[..size] == data && longer[size..] == [b];
    } else if |data| > size {
      assert longer[..size] == data[..size] && longer[size..] == data[size..] + [b];
      BlocksByte(size, data[size..], b);
    }
  }

  /** Writing on after `data` gives the blocks of the longer data. */
  lemma {:induction false} PutExtendsBlocks(size: nat, data: seq<Byte>, source: seq<Byte>)
    requires size > 0
    ensures Put(size, Blocks(size, data), source) == Blocks(size, data + source)
    decreases |source|
  {
    if source == [] {
      assert data + source == data;
    } else {
      var front, last := source[..|source| - 1], source[|source| - 1];
      PutExtendsBlocks(size, data, front);
      BlocksByte(size, data + front, last);
      Associative(data, front, [last]);
      assert source == front + [last];
    }
  }

  /** A sequence of writes, without flushes and without failures. */
  function PutAll(size: nat, p: Pipe, writes: seq<seq<Byte>>): (r: Pipe)
    requires size > 0 && |p.buf| <= size
    ensures |r.buf| <= size
    decreases |writes|
  {
    if writes == [] then p else PutAll(size, Put(size, p, writes[0]), writes[1..])
  }

  lemma {:induction false} PutAllIsPut(size: nat, p: Pipe, writes: seq<seq<Byte>>)
    requires size > 0 && |p.buf| <= size
    ensures PutAll(size, p, writes) == Put(size, p, Flatten(writes))
    decreases |writes|
  {
    if writes != [] {
      PutAllIsPut(size, Put(size, p, writes[0]), writes[1..]);
      PutConcat(size, p, writes[0], Flatten(writes[1..]));
    }
  }

  /**
    Without flushes the native payloads depend on the concatenated data only, not on how it was split into
    writes: they are the full blocks of the data, and the rest waits in the buffer.
    */
  lemma {:induction false} SplitsDoNotMatter(size: nat, writes: seq<seq<Byte>>)
    requires size > 0
    ensures PutAll(size, Pipe([], []), writes) == Blocks(size, Flatten(writes))
  {
    var data := Flatten(writes);
    assert Blocks(size, []) == Pipe([], []);
    PutAllIsPut(size, Pipe([], []), writes);
    PutExtendsBlocks(size, [], data);
    assert [] + data == data;
  }

  /** Disposing sends the rest, so `n` bytes make `ceil(n / size)` native writes, all but the last of full size. */
  lemma {:induction false} WritesPerStream(size: nat, data: seq<Byte>)
    requires size > 0
    ensures var sent := Flushed(Blocks(size, data)).sent;
            && Flatten(sent) == data
            && (forall i | 0 <= i < |sent| - 1 :: |sent[i]| == size)
            && (forall i | 0 <= i < |sent| :: 0 < |sent[i]| <= size)
            && IsCeilDiv(|sent|, |data|, size)
  {
    var p := Blocks(size, data);
    BlocksThrough(size, data);
    BlocksShape(size, data);
    FlushKeepsThrough(p);
    assert |Flushed(p).sent| == if p.buf == [] then |p.sent| else |p.sent| + 1;
    CeilOfBlocks(size, data);
  }

  lemma FlushKeepsThrough(p: Pipe)
    ensures Through(Flushed(p)) == Through(p) && Flushed(p).buf == []
  {
    if p.buf != [] {
      FlattenAppend(p.sent, p.buf);
    }
  }

  /** `k` is `n / size`, rounded up. */
  predicate IsCeilDiv(k: nat, n: nat, size: nat) {
    (k - 1) * size < n <= k * size
  }

  lemma {:induction false} CeilOfBlocks(size: nat, data: seq<Byte>)
    requires size > 0
    ensures var p := Blocks(size, data);
            IsCeilDiv(if p.buf == [] then |p.sent| else |p.sent| + 1, |data|, size)
  {
    BlocksCount(size, data);
    var k := |Blocks(size, data).sent|;
    assert (k + 1) * size == k * size + size;
    if |Blocks(size, data).buf| == 0 {
      BlocksShape(size, data);
    }
  }

  // ---------- Runs with failures ----------

  datatype State = State(pipe: Pipe, disposed: bool, closed: bool)

  datatype Call = Write(source: seq<Byte>) | Flush | Dispose

  datatype Result = Ok | Threw | ObjectDisposed

  /** `taken` counts the bytes of `source` that the call moved into the buffer before it ended. */
  datatype Event = Event(call: Call, result: Result, taken: nat)

  ghost predicate WriteStep(size: nat, s: State, source: seq<Byte>, e: Event, s': State)
    requires size > 0 && |s.pipe.buf| <= size && !s.disposed
  {
    && e.taken <= |source|
    && s' == s.(pipe := Put(size, s.pipe, source[..e.taken]))
    && match e.result
       case Ok => e.taken == |source|
       // a failed flush leaves a full buffer behind
       case Threw => e.taken < |source| && |s'.pipe.buf| == size
       case ObjectDisposed => false
  }

  ghost predicate FlushStep(s: State, e: Event, s': State) {
    match e.result
    case Ok => s' == s.(pipe := Flushed(s.pipe))
    // the native write failed, or the native flush did
    case Threw => s' == s || s' == s.(pipe := Flushed(s.pipe))
    case ObjectDisposed => false
  }

  ghost predicate DisposeStep(s: State, e: Event, s': State) {
    && s'.disposed && s'.pipe.buf == []
    && match e.result
       case Ok => s'.pipe == Flushed(s.pipe) && s'.closed
       case Threw => (s'.pipe.sent == s.pipe.sent || s'.pipe == Flushed(s.pipe)) && !s'.closed
       case ObjectDisposed => false
  }

  /** What one call may do. A disposed stream refuses to write and to flush; disposing it again does nothing. */
  ghost predicate Step(size: nat, s: State, e: Event, s': State)
    requires size > 0
  {
    && |s.pipe.buf| <= size
    && (!e.call.Write? ==> e.taken == 0)
    && if s.disposed then
         s' == s && e.taken == 0 && e.result == if e.call.Dispose? then Ok else ObjectDisposed
       else
         match e.call
         case Write(source) => WriteStep(size, s, source, e, s')
         case Flush => FlushStep(s, e, s')
         case Dispose => DisposeStep(s, e, s')
  }

  ghost predicate IsRun(size: nat, states: seq<State>, run: seq<Event>)
    requires size > 0
  {
    && |states| == |run| + 1
    && states[0] == State(Pipe([], []), false, false)
    && forall i | 0 <= i < |run| :: Step(size, states[i], run[i], states[i + 1])
  }

  /** All bytes that the stream took from its callers. */
  function TakenBy(run: seq<Event>): seq<Byte> {
    if run == [] then [] else TakenBy(run[..|run| - 1]) + TakenIn(run[|run| - 1])
  }

  function TakenIn(e: Event): seq<Byte> {
    if e.call.Write? && e.taken <= |e.call.source| then e.call.source[..e.taken] else []
  }

  lemma {:induction false} PutKeepsThrough(size: nat, p: Pipe, source: seq<Byte>)
    requires size > 0 && |p.buf| <= size
    ensures Through(Put(size, p, source)) == Through(p) + source
    decreases |source|
  {
    if source != [] {
      var front, last := source[..|source| - 1], source[|source| - 1];
      PutKeepsThrough(size, p, front);
      var q := Put(size, p, front);
      FlattenAppend(q.sent, q.buf);
      assert Through(PutByte(size, q, last)) == Through(q) + [last];
      assert source == front + [last];
    }
  }

  /**
    Conservation: as long as the stream is open, what was sent and what is buffered are exactly the bytes
    that were taken, also after calls that threw. Once it is disposed, what was sent is a part of them from
    the start, and all of them if the stream was closed.
    */
  lemma {:induction false} Conservation(size: nat, states: seq<State>, run: seq<Event>)
    requires size > 0 && IsRun(size, states, run)
    ensures var s := states[|run|];
            && |s.pipe.buf| <= size
            && (!s.disposed ==> Through(s.pipe) == TakenBy(run) && !s.closed)
            && (s.disposed ==> s.pipe.buf == [] && Flatten(s.pipe.sent) <= TakenBy(run))
            && (s.closed ==> s.disposed && Flatten(s.pipe.sent) == TakenBy(run))
    decreases |run|
  {
    if run != [] {
      var n := |run| - 1;
      var s, e, s' := states[n], run[n], states[n + 1];
      RunFront(size, states, run);
      Conservation(size, states[..n + 1], run[..n]);
      StepConserves(size, s, e, s', TakenBy(run[..n]));
    }
  }

  lemma {:induction false} StepConserves(size: nat, s: State, e: Event, s': State, taken: seq<Byte>)
    requires size > 0 && Step(size, s, e, s')
    requires !s.disposed ==> Through(s.pipe) == taken && !s.closed
    requires s.disposed ==> s.pipe.buf == [] && Flatten(s.pipe.sent) <= taken
    requires s.closed ==> s.disposed && Flatten(s.pipe.sent) == taken
    ensures |s'.pipe.buf| <= size
    ensures var taken' := taken + TakenIn(e);
            && (!s'.disposed ==> Through(s'.pipe) == taken' && !s'.closed)
            && (s'.disposed ==> s'.pipe.buf == [] && Flatten(s'.pipe.sent) <= taken')
            && (s'.closed ==> s'.disposed && Flatten(s'.pipe.sent) == taken')
  {
    FlushKeepsThrough(s.pipe);
    if e.call.Write? && !s.disposed {
      PutKeepsThrough(size, s.pipe, e.call.source[..e.taken]);
    }
  }

  /**
    No silent loss: the first `Dispose` returns normally exactly if it closed the native writer, and then
    everything the stream ever took had been delivered before.
    */
  lemma {:induction false} NoSilentLoss(size: nat, states: seq<State>, run: seq<Event>)
    requires size > 0 && IsRun(size, states, run)
    requires run != [] && run[|run| - 1].call.Dispose? && !states[|run| - 1].disposed
    ensures run[|run| - 1].result.Ok? <==> states[|run|].closed
    ensures run[|run| - 1].result.Ok? ==> Flatten(states[|run|].pipe.sent) == TakenBy(run)
  {
    assert Step(size, states[|run| - 1], run[|run| - 1], states[|run|]);
    Conservation(size, states, run);
  }

  /** A `Flush` that returns normally has delivered everything the stream took up to then; nothing waits any more. */
  lemma {:induction false} FlushDelivers(size: nat, states: seq<State>, run: seq<Event>)
    requires size > 0 && IsRun(size, states, run)
    requires run != [] && run[|run| - 1].call.Flush? && run[|run| - 1].result.Ok?
    ensures var s := states[|run|];
            !s.disposed && s.pipe.buf == [] && Flatten(s.pipe.sent) == TakenBy(run)
  {
    assert Step(size, states[|run| - 1], run[|run| - 1], states[|run|]);
    Conservation(size, states, run);
    FlushKeepsThrough(states[|run| - 1].pipe);
  }

  predicate OnlyWrites(run: seq<Event>) {
    forall i | 0 <= i < |run| :: run[i].call.Write? && run[i].result.Ok?
  }

  lemma {:induction false} RunFront(size: nat, states: seq<State>, run: seq<Event>)
    requires size > 0 && IsRun(size, states, run) && run != []
    ensures IsRun(size, states[..|run|], run[..|run| - 1])
    ensures Step(size, states[|run| - 1], run[|run| - 1], states[|run|])
  {
    forall i | 0 <= i < |run| - 1
      ensures Step(size, states[..|run|][i], run[..|run| - 1][i], states[..|run|][i + 1])
    {
      assert Step(size, states[i], run[i], states[i + 1]);
    }
  }

  lemma {:induction false} WritesMakeBlocks(size: nat, states: seq<State>, run: seq<Event>)
    requires size > 0 && IsRun(size, states, run) && OnlyWrites(run)
    ensures states[|run|] == State(Blocks(size, TakenBy(run)), false, false)
    decreases |run|
  {
    if run != [] {
      var n := |run| - 1;
      RunFront(size, states, run);
      WritesMakeBlocks(size, states[..n + 1], run[..n]);
      var source := run[n].call.source;
      assert source[..|source|] == source;
      PutExtendsBlocks(size, TakenBy(run[..n]), source);
    }
  }

  /**
    A stream that is written to in any pieces, without flushes, and then disposed normally: the native writes are
    the full blocks of the whole data and its rest, `ceil(n / size)` of them for `n` bytes.
    */
  lemma {:induction false} DisposedStreamSendsBlocks(size: nat, states: seq<State>, run: seq<Event>)
    requires size > 0 && IsRun(size, states, run) && run != []
    requires OnlyWrites(run[..|run| - 1]) && run[|run| - 1].call.Dispose? && run[|run| - 1].result.Ok?
    ensures var sent := states[|run|].pipe.sent;
            && Flatten(sent) == TakenBy(run)
            && (forall i | 0 <= i < |sent| - 1 :: |sent[i]| == size)
            && (forall i | 0 <= i < |sent| :: 0 < |sent[i]| <= size)
            && IsCeilDiv(|sent|, |TakenBy(run)|, size)
  {
    var n := |run| - 1;
    RunFront(size, states, run);
    WritesMakeBlocks(size, states[..n + 1], run[..n]);
    assert TakenBy(run) == TakenBy(run[..n]) + [] == TakenBy(run[..n]);
    assert states[|run|].pipe == Flushed(Blocks(size, TakenBy(run)));
    WritesPerStream(size, TakenBy(run));
  }

  // ---------- The loop of `Write` ----------

  /** A full buffer is sent. */
  function Ready(size: nat, p: Pipe): Pipe {
    if |p.buf| == size then Flushed(p) else p
  }

  /** Then as much as fits is appended. */
  lemma PutPart(size: nat, p: Pipe, part: seq<Byte>)
    requires size > 0 && |p.buf| <= size && part != []
    requires |part| <= size - |Ready(size, p).buf|
    ensures Put(size, p, part) == Pipe(Ready(size, p).buf + part, Ready(size, p).sent)
  {
    if |p.buf| == size {
      PutBehindFull(size, p, part);
      PutFits(size, Flushed(p), part);
    } else {
      PutFits(size, p, part);
    }
  }

  /** One turn of the loop of `Write`. */
  lemma {:induction false} PutMore(size: nat, start: Pipe, source: seq<Byte>, taken: nat, take: nat)
    requires size > 0 && |start.buf| <= size && take > 0 && taken + take <= |source|
    requires take <= size - |Ready(size, Put(size, start, source[..taken])).buf|
    ensures var p := Ready(size, Put(size, start, source[..taken]));
            Put(size, start, source[..taken + take]) == Pipe(p.buf + source[taken..taken + take], p.sent)
  {
    PutPart(size, Put(size, start, source[..taken]), source[taken..taken + take]);
    PutConcat(size, start, source[..taken], source[taken..taken + take]);
    assert source[..taken] + source[taken..taken + take] == source[..taken + take];
  }

  // ---------- The code ----------

  /** The native writer behind the handle. No call may follow `Free`, and `Free` itself comes once. */
  class NativeWriter {
    var payloads: seq<seq<Byte>>
    var flushed: nat           // how many payloads a native flush has reached
    var closed: bool
    var freed: bool
    var failures: nat          // how many native calls have failed

    constructor ()
      ensures payloads == [] && !closed && !freed
    {
      payloads, flushed, closed, freed, failures := [], 0, false, false, 0;
    }

    method Write(payload: seq<Byte>) returns (ok: bool)
      requires !freed
      modifies this`payloads, this`failures
      ensures payloads == if ok then old(payloads) + [payload] else old(payloads)
      ensures failures == if ok then old(failures) else old(failures) + 1
    {
      ok := *;
      if ok {
        payloads := payloads + [payload];
      } else {
        failures := failures + 1;
      }
    }

    method Flush() returns (ok: bool)
      requires !freed
      modifies this`flushed, this`failures
      ensures flushed == if ok then |payloads| else old(flushed)
      ensures failures == if ok then old(failures) else old(failures) + 1
    {
      ok := *;
      if ok {
        flushed := |payloads|;
      } else {
        failures := failures + 1;
      }
    }

    method Close() returns (ok: bool)
      requires !freed
      modifies this`closed, this`failures
      ensures closed == (ok || old(closed))
      ensures failures == if ok then old(failures) else old(failures) + 1
    {
      ok := *;
      closed := ok || closed;
      failures := if ok then failures else failures + 1;
    }

    method Free()
      requires !freed
      modifies this`freed
      ensures freed
    {
      freed := true;
    }
  }

  datatype Opened = Stream(stream: OperatorOutputStream) | BadHandle | BadSize

  class OperatorOutputStream {
    const writer: NativeWriter
    const buffer: array<Byte>
    var buffered: nat
    var disposed: bool

    ghost predicate Valid()
      reads this, writer
    {
      && buffer.Length > 0
      && buffered <= buffer.Length
      && (disposed <==> writer.freed)
      && (!disposed ==> !writer.closed)
    }

    ghost function View(): State
      reads this, writer, buffer
      requires Valid()
    {
      State(Pipe(buffer[..buffered], writer.payloads), disposed, writer.closed)
    }

    constructor (writer: NativeWriter, bufferSize: nat)
      requires bufferSize > 0 && !writer.freed && !writer.closed && writer.payloads == []
      ensures Valid() && View() == State(Pipe([], []), false, false)
      ensures this.writer == writer && buffer.Length == bufferSize && fresh(buffer)
    {
      this.writer := writer;
      buffer := new Byte[bufferSize](_ => 0);
      buffered, disposed := 0, false;
    }

    /** The checks of the source's constructor. A zero handle is `None`. */
    static method Open(handle: Option<NativeWriter>, bufferSize: int) returns (stream: Opened)
      requires handle.Some? ==> !handle.value.freed && !handle.value.closed && handle.value.payloads == []
      ensures stream.BadHandle? <==> handle.None?
      ensures stream.BadSize? <==> handle.Some? && bufferSize <= 0
      ensures stream.Stream? ==>
                && stream.stream.writer == handle.value && stream.stream.buffer.Length == bufferSize
                && stream.stream.Valid() && stream.stream.View() == State(Pipe([], []), false, false)
    {
      if handle.None? {
        return BadHandle;
      }
      if bufferSize <= 0 {
        return BadSize;
      }
      var s := new OperatorOutputStream(handle.value, bufferSize);
      return Stream(s);
    }

    method FlushBuffered() returns (ok: bool)
      requires Valid() && !disposed
      modifies this`buffered, writer`payloads, writer`failures
      ensures Valid()
      ensures ok <==> writer.failures == old(writer.failures)
      ensures View() == if ok then old(View()).(pipe := Flushed(old(View()).pipe)) else old(View())
      ensures !ok ==> buffered > 0
    {
      if buffered == 0 {
        return true;
      }
      ok := writer.Write(buffer[..buffered]);
      if ok {
        buffered := 0;
      }
    }

    /** Copies the front of `source` behind what is buffered, as much as fits. */
    method Fill(source: seq<Byte>) returns (take: nat)
      requires Valid() && source != [] && buffered < buffer.Length
      modifies this`buffered, buffer
      ensures Valid() && take == Min(buffer.Length - old(buffered), |source|)
      ensures buffer[..buffered] == old(buffer[..buffered]) + source[..take]
    {
      take := Min(buffer.Length - buffered, |source|);
      CopyInto(buffer, buffered, source[..take]);
      buffered := buffered + take;
    }

    method Write(source: seq<Byte>) returns (result: Result, ghost taken: nat)
      requires Valid()
      modifies this`buffered, buffer, writer`payloads, writer`failures
      ensures Valid()
      ensures result.Threw? <==> writer.failures != old(writer.failures)
      ensures Step(buffer.Length, old(View()), Event(Call.Write(source), result, taken), View())
    {
      if disposed {
        return ObjectDisposed, 0;
      }
      ghost var start := View();
      ghost var size := buffer.Length;
      taken := 0;
      var rest := source;
      while rest != []
        invariant Valid() && !disposed && taken <= |source| && rest == source[taken..]
        invariant writer.failures == old(writer.failures)
        invariant View() == start.(pipe := Put(size, start.pipe, source[..taken]))
        decreases |rest|
      {
        if buffered == buffer.Length {
          var ok := FlushBuffered();
          if !ok {
            return Threw, taken;
          }
        }
        var take := Fill(rest);
        assert rest[..take] == source[taken..taken + take];
        PutMore(size, start.pipe, source, taken, take);
        rest := rest[take..];
        taken := taken + take;
      }
      assert source[..taken] == source;
      result := Ok;
    }

    method Flush() returns (result: Result)
      requires Valid()
      modifies this`buffered, writer`payloads, writer`flushed, writer`failures
      ensures Valid()
      ensures result.Threw? <==> writer.failures != old(writer.failures)
      ensures result.Ok? ==> writer.flushed == |writer.payloads|
      ensures Step(buffer.Length, old(View()), Event(Call.Flush, result, 0), View())
    {
      if disposed {
        return ObjectDisposed;
      }
      var ok := FlushBuffered();
      if !ok {
        return Threw;
      }
      ok := writer.Flush();
      result := if ok then Ok else Threw;
    }

    /** The `finally` block frees the handle on every path. */
    method Dispose() returns (result: Result)
      requires Valid()
      modifies this`buffered, this`disposed, writer
      ensures Valid()
      ensures Step(buffer.Length, old(View()), Event(Call.Dispose, result, 0), View())
      ensures disposed && writer.freed
      ensures result.Threw? <==> writer.failures != old(writer.failures)
    {
      if disposed {
        return Ok;
      }
      result := Flush();
      if result.Ok? {
        var ok := writer.Close();
        result := if ok then Ok else Threw;
      }
      writer.Free();
      buffered := 0;
      disposed := true;
    }
  }
}
