/**
  `ReaderStream::ReaderStreamBuf` of the C++ binding: a `std::streambuf` with an 8 KiB get area
  over a reader that has a position of its own.

  The class at the end is the code. What it does to positions is the relation `Step`, and the
  lemmas are about runs of `Step`. `logical` is the position of the next byte the caller gets;
  the reader itself is `unread` bytes ahead of it. The reader opens its request when it is first read, and is spent if
  that fails (`CoreReader`).
  */
module ReaderStreamBuf {
  import opened Common
  import opened CoreReader

  const BUFFER_SIZE := 8192

  datatype Op = Peek | Get | Read(count: nat) | Seek(off: int, dir: SeekDir)

  /** Bytes handed out, a position, or an exception. */
  datatype Out = Bytes(data: seq<Byte>) | Position(pos: int) | Thrown

  /** `area` is the length of the get area; `drift` is how far `tellg` is ahead of `logical`. */
  datatype View = View(logical: nat, unread: nat, area: nat, drift: int, phase: Phase)

  /** A reader that is not open has filled no get area since the last seek. */
  predicate InFile(file: seq<Byte>, v: View) {
    && v.unread <= v.area <= BUFFER_SIZE && v.logical + v.unread <= |file|
    && (!v.phase.Opened? ==> v.area == 0)
    && (v.phase.Spent? ==> v.logical < |file|)
  }

  /** `seekoff(0, cur)` only tells. */
  predicate IsTell(op: Op) {
    op.Seek? && op.off == 0 && op.dir.Cur?
  }

  /** The call ran into an `underflow` that found nothing or threw. */
  predicate Failing(op: Op, out: Out) {
    match op
    case Peek => out == Bytes([]) || out.Thrown?
    case Get => out == Bytes([]) || out.Thrown?
    case Read(count) => out.Thrown? || (out.Bytes? && |out.data| < count)
    case Seek(_, _) => false
  }

  /** The bytes that can still be read without a seek. */
  function Remaining(file: seq<Byte>, v: View): int {
    if v.phase.Spent? then 0 else |file| - v.logical
  }

  /** What an operation may do; the reader may return short counts and may throw. */
  ghost predicate Step(file: seq<Byte>, v: View, op: Op, v': View, out: Out) {
    && InFile(file, v')
    && match op
       case Peek => OneByte(file, v, v', out, 0)
       case Get => OneByte(file, v, v', out, 1)
       case Read(count) => Block(file, v, count, v', out)
       case Seek(off, dir) =>
         if IsTell(op) then v' == v && out == Position(v.logical + v.drift)
         else
           // a relative seek starts from the reader's position, not from the logical one
           var target := Target(|file|, v.logical + v.unread, off, dir);
           if 0 <= target <= |file| then
             && v' == View(target, 0, 0, 0, v'.phase) && out == Position(target)
             && (v'.phase.Unopened? || (v.phase.Opened? && v'.phase.Opened?))
           else v' == v && out == Thrown
  }

  ghost predicate OneByte(file: seq<Byte>, v: View, v': View, out: Out, advance: nat) {
    && !out.Position?
    && (out.Bytes? ==>
          if Remaining(file, v) > 0
          then
            && v.logical < |file| && out.data == [file[v.logical]]
            && v'.logical == v.logical + advance && v'.phase.Opened?
          else out.data == [] && v'.logical == v.logical && v'.phase == v.phase)
    && (out.Thrown? ==> v'.logical == v.logical && v.unread == v'.unread == 0 && AfterThrow(v, v'))
    && v'.drift == v.drift + (if Failing(Get, out) then v'.area else 0)
    && (Failing(Get, out) ==> v'.area == v.area)
  }

  ghost predicate Block(file: seq<Byte>, v: View, count: nat, v': View, out: Out) {
    && !out.Position?
    && (out.Bytes? ==>
          && var n := Min(count, Remaining(file, v));
          && 0 <= n && v.logical + n <= |file|
          && out.data == file[v.logical..v.logical + n] && v'.logical == v.logical + n
          && (if n == 0 then v'.phase == v.phase else v'.phase.Opened?))
    && (out.Thrown? ==>
          // what is buffered goes first
          && v.logical + v.unread <= v'.logical < v.logical + count && v'.unread == 0
          && (if v'.logical == v.logical then AfterThrow(v, v') else v'.phase.Opened? && !v.phase.Spent?))
    && v'.drift == v.drift + (if Failing(Read(count), out) then v'.area else 0)
    && (Failing(Read(count), out) && v'.logical == v.logical ==> v'.area == v.area)
  }

  /** A read that throws without having handed out a byte: the request was not opened, or it failed later. */
  predicate AfterThrow(v: View, v': View) {
    !v.phase.Spent? && (v.phase.Opened? ==> v'.phase.Opened?) && !v'.phase.Unopened?
  }

  /** The loop of `xsgetn` has handed out `total` bytes and is not at its end. */
  ghost predicate Reading(file: seq<Byte>, v0: View, count: nat, total: nat, v: View) {
    && InFile(file, v) && total <= count
    && v.logical == v0.logical + total && v.drift == v0.drift
    && v0.logical + v0.unread <= v.logical + v.unread
    && (total == 0 && (v.unread == 0 || count == 0) ==> v.area == v0.area && v.phase == v0.phase)
    && (total > 0 || v.unread > 0 ==> v.phase.Opened? && !v0.phase.Spent?)
  }

  lemma CopyKeepsReading(file: seq<Byte>, v0: View, count: nat, total: nat, v: View, n: nat)
    requires Reading(file, v0, count, total, v) && 1 <= n <= count - total && n <= v.unread
    ensures Reading(file, v0, count, total + n, v.(logical := v.logical + n, unread := v.unread - n))
    ensures file[v0.logical..v.logical] + file[v.logical..v.logical + n] == file[v0.logical..v.logical + n]
  {
  }

  lemma RefillKeepsReading(file: seq<Byte>, v0: View, count: nat, total: nat, v: View, v': View, c: Out)
    requires Reading(file, v0, count, total, v) && total < count && v.unread == 0
    requires Step(file, v, Peek, v', c) && c.Bytes? && c.data != [] && v'.unread > 0
    ensures Reading(file, v0, count, total, v')
  {
  }

  lemma ReadEnds(file: seq<Byte>, v0: View, count: nat, v: View, v': View, total: nat, last: Out)
    requires Reading(file, v0, count, total, v)
    requires if total == count then v' == v && last == Bytes([])
             else v.unread == 0 && OneByte(file, v, v', last, 0) && Failing(Peek, last) && InFile(file, v')
    requires last.Thrown? ==> v'.unread == 0
    ensures Step(file, v0, Read(count), v',
                 if last.Thrown? then Thrown else Bytes(file[v0.logical..v0.logical + total]))
  {
  }

  // ---------- Runs ----------

  datatype Event = Event(op: Op, out: Out)

  /** `views` are the states before, between and after the events. */
  ghost predicate IsRun(file: seq<Byte>, views: seq<View>, run: seq<Event>) {
    |views| == |run| + 1 && InFile(file, views[0]) && forall i | 0 <= i < |run| :: StepAt(file, views, run, i)
  }

  ghost predicate StepAt(file: seq<Byte>, views: seq<View>, run: seq<Event>, i: nat)
    requires i < |run| < |views|
  {
    Step(file, views[i], run[i].op, views[i + 1], run[i].out)
  }

  lemma {:induction false} RunInFile(file: seq<Byte>, views: seq<View>, run: seq<Event>, n: nat)
    requires IsRun(file, views, run) && n <= |run|
    ensures InFile(file, views[n])
  {
    if n > 0 {
      assert StepAt(file, views, run, n - 1);
    }
  }

  /** Reading and telling, but no seek that moves. */
  predicate NoSeek(e: Event) {
    e.op.Seek? ==> IsTell(e.op)
  }

  ghost predicate NoSeeks(run: seq<Event>) {
    forall i | 0 <= i < |run| :: NoSeek(run[i])
  }

  function ConsumedBy(e: Event): seq<Byte> {
    if e.op.Peek? || !e.out.Bytes? then [] else e.out.data
  }

  /** The bytes that the first `n` calls consumed and handed to their callers. */
  function Consumed(run: seq<Event>, n: nat): seq<Byte>
    requires n <= |run|
  {
    if n == 0 then [] else Consumed(run, n - 1) + ConsumedBy(run[n - 1])
  }

  /** The bytes that calls had consumed when they threw. */
  function Lost(views: seq<View>, run: seq<Event>, n: nat): int
    requires n <= |run| < |views|
  {
    if n == 0 then 0
    else Lost(views, run, n - 1) + if run[n - 1].out.Thrown? then views[n].logical - views[n - 1].logical else 0
  }

  lemma StepConsumes(file: seq<Byte>, v: View, e: Event, v': View)
    requires InFile(file, v) && Step(file, v, e.op, v', e.out) && NoSeek(e)
    ensures v.logical <= v'.logical <= |file|
    ensures !e.out.Thrown? ==> ConsumedBy(e) == file[v.logical..v'.logical]
    ensures e.out.Thrown? ==> ConsumedBy(e) == []
  {
    match e.op
    case Read(_) =>
    case _ =>
  }

  lemma Join(file: seq<Byte>, first: nat, mid: nat, last: nat)
    requires first <= mid <= last <= |file|
    ensures file[first..mid] + file[mid..last] == file[first..last]
  {
  }

  lemma CutSlice(file: seq<Byte>, from: nat, to: nat, n: nat)
    requires from + n <= to <= |file|
    ensures file[from..to][..n] == file[from..from + n] && file[from..to][n..] == file[from + n..to]
  {
  }

  /**
    Buffered reads refine plain reads: any mix of `peek`, `get` and `read` of any sizes hands out the bytes of the
    file in order, none twice, whatever short counts and errors the reader returns; and none is lost, except those that
    a call had consumed when it threw.
    */
  lemma {:induction false} ReadsRefineTheFile(file: seq<Byte>, views: seq<View>, run: seq<Event>, n: nat)
    requires IsRun(file, views, run) && NoSeeks(run) && n <= |run|
    ensures views[0].logical <= views[n].logical <= |file| && 0 <= Lost(views, run, n)
    ensures |Consumed(run, n)| + Lost(views, run, n) == views[n].logical - views[0].logical
    ensures Lost(views, run, n) == 0 ==> Consumed(run, n) == file[views[0].logical..views[n].logical]
  {
    if n > 0 {
      ReadsRefineTheFile(file, views, run, n - 1);
      RunInFile(file, views, run, n - 1);
      assert StepAt(file, views, run, n - 1) && NoSeek(run[n - 1]);
      StepConsumes(file, views[n - 1], run[n - 1], views[n]);
      Join(file, views[0].logical, views[n - 1].logical, views[n].logical);
    }
  }

  lemma StepPhase(file: seq<Byte>, v: View, e: Event, v': View)
    requires InFile(file, v) && Step(file, v, e.op, v', e.out) && NoSeek(e)
    ensures v.phase.Spent? ==> v'.phase.Spent?
    ensures v'.phase.Spent? && !v.phase.Spent? ==> OpenFails(v.phase, v'.phase)
  {
    match e.op
    case Read(_) =>
    case _ =>
  }

  lemma {:induction false} SpentIff(file: seq<Byte>, views: seq<View>, run: seq<Event>, n: nat)
    requires IsRun(file, views, run) && NoSeeks(run) && n <= |run| && !views[0].phase.Spent?
    ensures views[n].phase.Spent? <==> exists i | 0 <= i < n :: OpenFails(views[i].phase, views[i + 1].phase)
  {
    if n > 0 {
      SpentIff(file, views, run, n - 1);
      RunInFile(file, views, run, n - 1);
      assert StepAt(file, views, run, n - 1) && NoSeek(run[n - 1]);
      StepPhase(file, views[n - 1], run[n - 1], views[n]);
      if views[n].phase.Spent? && !views[n - 1].phase.Spent? {
        assert OpenFails(views[n - 1].phase, views[n - 1 + 1].phase);
      }
    }
  }

  /** The call asked for something, got nothing and did not throw: what callers take for the end. */
  predicate SaysEnd(e: Event) {
    e.out == Bytes([]) && (e.op.Get? || e.op.Peek? || (e.op.Read? && e.op.count > 0))
  }

  /**
    Reading on, with or without exceptions between, until a call says that the end is reached, hands out the whole
    rest of the file if and only if no call had consumed bytes when it threw and none failed to open the request.
    */
  lemma {:induction false} WholeFileIff(file: seq<Byte>, views: seq<View>, run: seq<Event>)
    requires IsRun(file, views, run) && NoSeeks(run) && !views[0].phase.Spent?
    requires run != [] && SaysEnd(run[|run| - 1])
    ensures Consumed(run, |run|) == file[views[0].logical..] <==>
            && Lost(views, run, |run|) == 0
            && !exists i | 0 <= i < |run| :: OpenFails(views[i].phase, views[i + 1].phase)
  {
    var n := |run|;
    ReadsRefineTheFile(file, views, run, n);
    SpentIff(file, views, run, n);
    assert StepAt(file, views, run, n - 1);
    EndOrSpent(file, views[n - 1], run[n - 1], views[n]);
    assert views[n].logical == |file| ==> file[views[0].logical..views[n].logical] == file[views[0].logical..];
  }

  // ---------- What exceptions cost ----------

  /** A read that throws has used up all that was buffered, so it does not throw if that was enough. */
  lemma ThrowingReadUsesTheBuffer(file: seq<Byte>, v: View, count: nat, v': View)
    requires Step(file, v, Read(count), v', Thrown)
    ensures v.unread < count && v'.logical - v.logical >= v.unread
  {
  }

  /** Some read of `count` bytes from here throws and loses bytes. */
  ghost predicate CanLose(file: seq<Byte>, v: View, count: nat) {
    exists v' :: Step(file, v, Read(count), v', Thrown) && v'.logical > v.logical
  }

  /**
    A block read can lose bytes by an exception exactly if it asks for more than is buffered, and something is buffered
    or it asks for more than one byte and there is one. So reads of one byte, and reads of what is buffered, are safe.
    */
  lemma LossPossibleIff(file: seq<Byte>, v: View, count: nat)
    requires InFile(file, v)
    ensures CanLose(file, v, count) <==>
            count > v.unread && (v.unread > 0 || (count > 1 && Remaining(file, v) > 0))
  {
    if count > v.unread && (v.unread > 0 || (count > 1 && Remaining(file, v) > 0)) {
      var lost := if v.unread > 0 then v.unread else 1;
      var v' := View(v.logical + lost, 0, 1, v.drift + 1, Opened);
      assert Step(file, v, Read(count), v', Thrown);
    }
  }

  predicate Safe(file: seq<Byte>, v: View, e: Event) {
    e.op.Read? ==> e.op.count <= 1 || e.op.count <= v.unread || Remaining(file, v) == 0
  }

  lemma {:induction false} SafeReadsLoseNothing(file: seq<Byte>, views: seq<View>, run: seq<Event>, n: nat)
    requires IsRun(file, views, run) && NoSeeks(run) && n <= |run|
    requires forall i | 0 <= i < n :: Safe(file, views[i], run[i])
    ensures Lost(views, run, n) == 0
  {
    if n > 0 {
      SafeReadsLoseNothing(file, views, run, n - 1);
      RunInFile(file, views, run, n - 1);
      assert StepAt(file, views, run, n - 1) && NoSeek(run[n - 1]);
      SafeStep(file, views[n - 1], run[n - 1], views[n]);
    }
  }

  lemma SafeStep(file: seq<Byte>, v: View, e: Event, v': View)
    requires InFile(file, v) && Step(file, v, e.op, v', e.out) && NoSeek(e) && Safe(file, v, e)
    ensures e.out.Thrown? ==> v'.logical == v.logical
  {
    match e.op
    case Read(_) =>
    case _ =>
  }

  /** With such reads, exceptions or not, the whole rest of the file comes exactly if the request could be opened. */
  lemma {:induction false} SafeReadsGetTheFileIff(file: seq<Byte>, views: seq<View>, run: seq<Event>)
    requires IsRun(file, views, run) && NoSeeks(run) && !views[0].phase.Spent?
    requires run != [] && SaysEnd(run[|run| - 1])
    requires forall i | 0 <= i < |run| :: Safe(file, views[i], run[i])
    ensures Consumed(run, |run|) == file[views[0].logical..] <==>
            !exists i | 0 <= i < |run| :: OpenFails(views[i].phase, views[i + 1].phase)
  {
    SafeReadsLoseNothing(file, views, run, |run|);
    WholeFileIff(file, views, run);
  }

  lemma FirstByteComes(file: seq<Byte>)
    requires |file| == 2
    ensures Step(file, View(0, 0, 0, 0, Unopened), Read(1), View(1, 1, 2, 0, Opened), Bytes([file[0]]))
  {
    assert file[0..1] == [file[0]];
  }

  lemma SecondByteIsLost(file: seq<Byte>)
    requires |file| == 2
    ensures Step(file, View(1, 1, 2, 0, Opened), Read(2), View(2, 0, 2, 2, Opened), Thrown)
    ensures Step(file, View(2, 0, 2, 2, Opened), Read(1), View(2, 0, 2, 4, Opened), Bytes([]))
  {
    assert file[2..2] == [];
  }

  /** Two bytes, of which the second is lost: it was buffered when a read of two bytes threw. */
  lemma {:induction false} ExceptionLosesByte(a: Byte, b: Byte) returns (views: seq<View>, run: seq<Event>)
    ensures IsRun([a, b], views, run) && NoSeeks(run) && Settled(views[0]) && views[0].logical == 0
    ensures run == [Event(Read(1), Bytes([a])), Event(Read(2), Thrown), Event(Read(1), Bytes([]))]
    ensures Consumed(run, 3) == [a]
  {
    var file := [a, b];
    var v0, v1 := View(0, 0, 0, 0, Unopened), View(1, 1, 2, 0, Opened);
    var v2, v3 := View(2, 0, 2, 2, Opened), View(2, 0, 2, 4, Opened);
    views := [v0, v1, v2, v3];
    run := [Event(Read(1), Bytes([a])), Event(Read(2), Thrown), Event(Read(1), Bytes([]))];
    FirstByteComes(file);
    SecondByteIsLost(file);
    assert Consumed(run, 1) == [a] && Consumed(run, 2) == [a] + [] == [a];
  }

  lemma EndOrSpent(file: seq<Byte>, v: View, e: Event, v': View)
    requires Step(file, v, e.op, v', e.out) && SaysEnd(e)
    ensures v'.logical == |file| <==> !v'.phase.Spent?
  {
    match e.op
    case Read(_) =>
    case _ =>
  }

  /** A file that is not empty can look empty: an exception, and then the end. */
  lemma {:induction false} FailedOpenLooksEmpty(file: seq<Byte>, count: nat) returns (views: seq<View>, run: seq<Event>)
    requires file != [] && count > 0
    ensures IsRun(file, views, run) && Settled(views[0]) && views[0].logical == 0
    ensures run == [Event(Read(count), Thrown), Event(Read(count), Bytes([]))]
  {
    var v := View(0, 0, 0, 0, Unopened);
    var v' := v.(phase := Spent);
    views, run := [v, v', v'], [Event(Read(count), Thrown), Event(Read(count), Bytes([]))];
    assert Step(file, v, Read(count), v', Thrown) && Step(file, v', Read(count), v', Bytes([]));
  }

  // ---------- Positions ----------

  /** What failing calls add to `tellg`: each of them the length of the get area it met. */
  function Drifts(views: seq<View>, run: seq<Event>, n: nat): int
    requires n <= |run| < |views|
  {
    if n == 0 then 0
    else Drifts(views, run, n - 1) + if Failing(run[n - 1].op, run[n - 1].out) then views[n].area else 0
  }

  /** Between seeks `tellg` runs ahead by exactly the sum of the get areas over the failing calls. */
  lemma {:induction false} DriftIsExact(file: seq<Byte>, views: seq<View>, run: seq<Event>, n: nat)
    requires IsRun(file, views, run) && NoSeeks(run) && n <= |run|
    ensures views[n].drift == views[0].drift + Drifts(views, run, n)
  {
    if n > 0 {
      DriftIsExact(file, views, run, n - 1);
      assert StepAt(file, views, run, n - 1) && NoSeek(run[n - 1]);
    }
  }

  lemma {:induction false} NoDriftIff(views: seq<View>, run: seq<Event>, n: nat)
    requires n <= |run| < |views|
    ensures 0 <= Drifts(views, run, n)
    ensures Drifts(views, run, n) == 0 <==>
            forall i | 0 <= i < n :: Failing(run[i].op, run[i].out) ==> views[i + 1].area == 0
  {
    if n > 0 {
      NoDriftIff(views, run, n - 1);
    }
  }

  /** A new buffer, and every buffer after a seek that moved. */
  predicate Settled(v: View) {
    v.unread == v.area == v.drift == 0
  }

  lemma SeekSettles(file: seq<Byte>, v: View, off: int, dir: SeekDir, v': View, out: Out)
    requires Step(file, v, Seek(off, dir), v', out) && !IsTell(Seek(off, dir)) && !out.Thrown?
    ensures Settled(v') && out == Position(v'.logical) && !v'.phase.Spent?
  {
  }

  /**
    `tellg` is right exactly as long as no call since the last seek failed over a non-empty get area.
    */
  lemma {:induction false} TellIsRightIff(file: seq<Byte>, views: seq<View>, run: seq<Event>, v': View, out: Out)
    requires IsRun(file, views, run) && NoSeeks(run) && Settled(views[0])
    requires Step(file, views[|run|], Seek(0, Cur), v', out)
    ensures out == Position(v'.logical) <==>
            forall i | 0 <= i < |run| :: Failing(run[i].op, run[i].out) ==> views[i + 1].area == 0
  {
    DriftIsExact(file, views, run, |run|);
    NoDriftIff(views, run, |run|);
  }

  /** A call that fails and moves nothing, be it at the end of the file or by an exception. */
  ghost predicate Fruitless(v: View, e: Event, v': View) {
    Failing(e.op, e.out) && v'.logical == v.logical
  }

  /** `n` fruitless calls in a row move `tellg` ahead by `n` times the length of the last get area. */
  lemma {:induction false} OvershootOfFailures(file: seq<Byte>, views: seq<View>, run: seq<Event>, n: nat)
    requires IsRun(file, views, run) && n <= |run|
    requires forall i | 0 <= i < |run| :: Fruitless(views[i], run[i], views[i + 1])
    ensures views[n].logical == views[0].logical && views[n].area == views[0].area
    ensures views[n].drift == views[0].drift + n * views[0].area
  {
    if n > 0 {
      OvershootOfFailures(file, views, run, n - 1);
      assert StepAt(file, views, run, n - 1) && Fruitless(views[n - 1], run[n - 1], views[n - 1 + 1]);
      assert n * views[0].area == (n - 1) * views[0].area + views[0].area;
    }
  }

  /** An absolute seek lands where it says and the next byte got is the byte there; outside the file it throws. */
  lemma SeekFromBeginning(file: seq<Byte>, v: View, pos: int, v': View, out: Out, v'': View, next: Out)
    requires Step(file, v, Seek(pos, Beg), v', out) && Step(file, v', Get, v'', next)
    ensures if 0 <= pos <= |file| then
              && out == Position(pos) && v'.logical == pos
              && (next.Bytes? ==> next.data == if pos < |file| then [file[pos]] else [])
            else
              out == Thrown && v' == v
  {
  }

  /** The same from the end of the file, with offsets that count back. */
  lemma SeekFromEnd(file: seq<Byte>, v: View, off: int, v': View, out: Out, v'': View, next: Out)
    requires Step(file, v, Seek(off, End), v', out) && Step(file, v', Get, v'', next)
    ensures if -|file| <= off <= 0 then
              && out == Position(|file| + off) && v'.logical == |file| + off
              && (next.Bytes? ==> next.data == if off < 0 then [file[|file| + off]] else [])
            else
              out == Thrown && v' == v
  {
  }

  /** The byte that was peeked at is the byte that is got next. */
  lemma PeekThenGet(file: seq<Byte>, v: View, v': View, peeked: Out, v'': View, got: Out)
    requires InFile(file, v) && Step(file, v, Peek, v', peeked) && Step(file, v', Get, v'', got)
    requires peeked.Bytes? && got.Bytes?
    ensures got.data == peeked.data && v'.logical == v.logical && v''.logical == v.logical + |got.data|
  {
  }

  predicate Inside(file: seq<Byte>, pos: int) {
    0 <= pos <= |file|
  }

  /** What the caller of a relative seek means: to land there if that is in the file, and an exception if not. */
  ghost predicate AsMeant(file: seq<Byte>, v: View, off: int, v': View, out: Out) {
    if Inside(file, v.logical + off) then v'.logical == v.logical + off && out == Position(v'.logical)
    else out.Thrown? && v' == v
  }

  /**
    A relative seek does what its caller means exactly if no byte is buffered and unread, or if the place meant and the
    place that many bytes behind it are both outside the file.
    */
  lemma RelativeSeekIsRightIff(file: seq<Byte>, v: View, off: int, v': View, out: Out)
    requires Step(file, v, Seek(off, Cur), v', out) && off != 0
    ensures AsMeant(file, v, off, v', out) <==>
            v.unread == 0 || (!Inside(file, v.logical + off) && !Inside(file, v.logical + off + v.unread))
    // otherwise it throws although its target is in the file, or it lands `unread` bytes too far
    ensures !AsMeant(file, v, off, v', out) ==> out.Thrown? || v'.logical == v.logical + off + v.unread
  {
  }

  /** Ten bytes, one of them read and the others buffered: five bytes on is in the file, and the seek throws. */
  lemma RelativeSeekCanThrow(file: seq<Byte>, v': View, out: Out)
    requires |file| == 10 && Step(file, View(1, 9, 10, 0, Opened), Seek(5, Cur), v', out)
    ensures out.Thrown? && Inside(file, 1 + 5)
  {
  }

  /** The reader's seek, and an empty get area behind it. */
  lemma MoveIsStep(file: seq<Byte>, v: View, off: int, dir: SeekDir, at: CoreReader.Standing, newPos: Option<nat>,
                   at': CoreReader.Standing)
    requires InFile(file, v) && at == CoreReader.Standing(v.logical + v.unread, v.phase) && !IsTell(Seek(off, dir))
    requires InRange(file, at') && SeekStep(file, at, Target(|file|, at.pos, off, dir), newPos, at')
    ensures newPos.None? ==> at' == at && Step(file, v, Seek(off, dir), v, Thrown)
    ensures newPos.Some? ==>
              Step(file, v, Seek(off, dir), View(newPos.value, 0, 0, 0, at'.phase), Position(newPos.value))
  {
  }

  // ---------- The code ----------

  /** `gptr` and `egptr` count from `eback`, the start of the buffer. */
  class StreamBuf {
    const reader: StdReader
    const buffer: array<Byte>
    var gptr: nat
    var egptr: nat
    var bufferStartPos: int

    ghost predicate Valid()
      reads this, reader, buffer
    {
      && reader.Valid()
      && buffer.Length == BUFFER_SIZE
      && gptr <= egptr <= BUFFER_SIZE
      && egptr - gptr <= reader.pos
      && (!reader.phase.Opened? ==> egptr == 0)
      && buffer[gptr..egptr] == reader.content[reader.pos - (egptr - gptr)..reader.pos]
    }

    ghost function Standing(): (v: View)
      reads this, reader, buffer
      requires Valid()
      ensures InFile(reader.content, v)
    {
      View(reader.pos - (egptr - gptr), egptr - gptr, egptr, bufferStartPos + egptr - reader.pos, reader.phase)
    }

    constructor (reader: StdReader)
      requires reader.Valid() && reader.At() == CoreReader.Standing(0, Unopened)
      ensures this.reader == reader && fresh(buffer)
      ensures Valid() && Settled(Standing())
    {
      this.reader := reader;
      buffer := new Byte[BUFFER_SIZE](_ => 0);
      gptr, egptr, bufferStartPos := 0, 0, 0;
    }

    /** `underflow` with nothing left in the get area. */
    method Refill() returns (out: Out)
      requires Valid() && gptr == egptr
      modifies this, reader, buffer
      ensures Valid() && Step(reader.content, old(Standing()), Peek, Standing(), out)
      ensures out.Thrown? <==> reader.failures != old(reader.failures)
      ensures out.Bytes? && out.data != [] ==> gptr < egptr && out.data[0] == buffer[gptr]
    {
      bufferStartPos := bufferStartPos + egptr;
      var n, threw := reader.ReadInto(buffer, 0);
      if threw {
        return Thrown;
      }
      if n == 0 {
        return Bytes([]);
      }
      gptr, egptr := 0, n;
      out := Bytes([buffer[0]]);
      assert buffer[..n][0] == buffer[0];
    }

    method Underflow() returns (out: Out)
      requires Valid()
      modifies this, reader, buffer
      ensures Valid() && Step(reader.content, old(Standing()), Peek, Standing(), out)
      ensures out.Thrown? <==> reader.failures != old(reader.failures)
      ensures out.Bytes? && out.data != [] ==> gptr < egptr && out.data[0] == buffer[gptr]
    {
      if gptr < egptr {
        assert buffer[gptr..egptr][0] == buffer[gptr] == reader.content[Standing().logical];
        return Bytes([buffer[gptr]]);
      }
      out := Refill();
    }

    method Uflow() returns (out: Out)
      requires Valid()
      modifies this, reader, buffer
      ensures Valid() && Step(reader.content, old(Standing()), Get, Standing(), out)
      ensures out.Thrown? <==> reader.failures != old(reader.failures)
    {
      out := Underflow();
      if out.Bytes? && out.data != [] {
        gptr := gptr + 1;
      }
    }

    /** One `memcpy` out of the get area, to `s[at..]` and not beyond `s[..count]`. */
    method CopyBuffered(s: array<Byte>, at: nat, count: nat) returns (n: nat)
      requires Valid() && gptr < egptr && at < count <= s.Length && s != buffer
      modifies this`gptr, s
      ensures Valid() && 1 <= n <= count - at && n <= old(Standing()).unread
      ensures Standing() ==
              old(Standing()).(logical := old(Standing()).logical + n, unread := old(Standing()).unread - n)
      ensures s[..at + n] == old(s[..at]) + reader.content[old(Standing()).logical..Standing().logical]
    {
      n := Min(egptr - gptr, count - at);
      ghost var from, bytes := Standing().logical, buffer[..];
      CutSlice(reader.content, from, reader.pos, n);
      CutSlice(bytes, gptr, egptr, n);
      CopyInto(s, at, buffer[gptr..gptr + n]);
      gptr := gptr + n;
      assert buffer[..] == bytes;
    }

    /** A turn of the loop of `xsgetn` that finds something in the get area. */
    method CopyTurn(s: array<Byte>, count: nat, total: nat, ghost v0: View) returns (copied: nat)
      requires Valid() && gptr < egptr && total < count <= s.Length && s != buffer
      requires Reading(reader.content, v0, count, total, Standing())
      requires s[..total] == reader.content[v0.logical..v0.logical + total]
      modifies this`gptr, s
      ensures Valid() && 1 <= copied <= count - total
      ensures Reading(reader.content, v0, count, total + copied, Standing())
      ensures s[..total + copied] == reader.content[v0.logical..v0.logical + total + copied]
    {
      ghost var v := Standing();
      copied := CopyBuffered(s, total, count);
      CopyKeepsReading(reader.content, v0, count, total, v, copied);
    }

    /** A turn that finds the get area used up. */
    method RefillTurn(count: nat, total: nat, ghost v0: View) returns (ended: Ended)
      requires Valid() && gptr == egptr && total < count
      requires Reading(reader.content, v0, count, total, Standing())
      modifies this, reader, buffer
      ensures Valid() && (ended.MetError? <==> reader.failures != old(reader.failures))
      ensures ended.Goes? ==> Reading(reader.content, v0, count, total, Standing()) && gptr < egptr
      ensures ended.MetError? ==> Step(reader.content, v0, Read(count), Standing(), Thrown)
      ensures ended.MetEnd? ==>
                && v0.logical + total <= |reader.content|
                && Step(reader.content, v0, Read(count), Standing(),
                        Bytes(reader.content[v0.logical..v0.logical + total]))
    {
      ghost var file, v := reader.content, Standing();
      var c := Refill();
      if c.Thrown? {
        ReadEnds(file, v0, count, v, Standing(), total, c);
        return MetError;
      }
      if c.data == [] {
        ReadEnds(file, v0, count, v, Standing(), total, c);
        return MetEnd;
      }
      RefillKeepsReading(file, v0, count, total, v, Standing(), c);
      ended := Goes;
    }

    method Xsgetn(s: array<Byte>, count: nat) returns (out: Out)
      requires Valid() && count <= s.Length && s != buffer
      modifies this, reader, buffer, s
      ensures Valid() && Step(reader.content, old(Standing()), Read(count), Standing(), out)
      ensures out.Thrown? <==> reader.failures != old(reader.failures)
      ensures out.Bytes? ==> |out.data| <= count && s[..|out.data|] == out.data
    {
      ghost var file, v0 := reader.content, Standing();
      var total := 0;
      while total < count
        invariant Valid() && Reading(file, v0, count, total, Standing())
        invariant s[..total] == file[v0.logical..v0.logical + total] && reader.failures == old(reader.failures)
        decreases count - total, if gptr < egptr then 0 else 1
      {
        if gptr < egptr {
          var copied := CopyTurn(s, count, total, v0);
          total := total + copied;
          continue;
        }
        ghost var front := s[..total];
        var ended := RefillTurn(count, total, v0);
        assert s[..total] == front;
        if ended.MetError? {
          return Thrown;
        }
        if ended.MetEnd? {
          return Bytes(s[..total]);
        }
      }
      ReadEnds(file, v0, count, Standing(), Standing(), total, Bytes([]));
      out := Bytes(s[..total]);
    }

    /** A seek that moves. */
    method Move(off: int, dir: SeekDir) returns (out: Out)
      requires Valid() && !IsTell(Seek(off, dir))
      modifies this, reader
      ensures Valid() && Step(reader.content, old(Standing()), Seek(off, dir), Standing(), out)
    {
      ghost var v, at := Standing(), reader.At();
      var newPos := reader.Seek(off, dir);
      MoveIsStep(reader.content, v, off, dir, at, newPos, reader.At());
      if newPos.None? {
        return Thrown;
      }
      bufferStartPos := newPos.value;
      gptr, egptr := 0, 0;
      assert buffer[0..0] == [] == reader.content[reader.pos..reader.pos];
      out := Out.Position(newPos.value);
    }

    method SeekOff(off: int, dir: SeekDir) returns (out: Out)
      requires Valid()
      modifies this, reader
      ensures Valid() && Step(reader.content, old(Standing()), Seek(off, dir), Standing(), out)
      ensures dir.Beg? ==> out == if 0 <= off <= |reader.content| then Position(off) else Thrown
      ensures dir.End? ==> out == if -|reader.content| <= off <= 0 then Position(|reader.content| + off) else Thrown
    {
      if dir.Cur? && off == 0 {
        return Out.Position(bufferStartPos + gptr);
      }
      out := Move(off, dir);
    }

    method SeekPos(pos: int) returns (out: Out)
      requires Valid()
      modifies this, reader
      ensures Valid() && Step(reader.content, old(Standing()), Seek(pos, Beg), Standing(), out)
      ensures out == if 0 <= pos <= |reader.content| then Position(pos) else Thrown
      ensures Standing().logical == if 0 <= pos <= |reader.content| then pos else old(Standing()).logical
    {
      out := SeekOff(pos, Beg);
    }
  }
}
