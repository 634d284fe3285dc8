/**
  `OperatorInputStream` of the .NET binding: reads are served from chunks that a native iterator
  produces. An empty chunk means the end of the file. The iterator opens its request when it is first asked; if that
  fails, the iterator is spent and produces empty chunks from then on.

  The class at the end is the code; `Step` says what one read does, and the lemmas are about runs.
  */
module InputStream {
  import opened Common
  import opened CoreReader

  /** What is left of the current chunk, and the chunks that the native iterator will still produce. */
  datatype Source = Source(current: seq<Byte>, chunks: seq<seq<Byte>>, phase: Phase)

  /** Nothing was produced before the request was opened, and nothing is produced by a spent iterator. */
  predicate Consistent(s: Source) {
    (!s.phase.Opened? ==> s.current == []) && (s.phase.Spent? ==> s.chunks == [])
  }

  const SPENT := Source([], [], Spent)

  function All(s: Source): seq<Byte> {
    s.current + Flatten(s.chunks)
  }

  /** The chunks before the first empty one, joined. */
  function UpToEmpty(chunks: seq<seq<Byte>>): seq<Byte> {
    if chunks == [] || chunks[0] == [] then [] else chunks[0] + UpToEmpty(chunks[1..])
  }

  /** The chunks behind the first empty one. */
  function BehindEmpty(chunks: seq<seq<Byte>>): seq<seq<Byte>> {
    if chunks == [] then []
    else if chunks[0] == [] then chunks[1..]
    else BehindEmpty(chunks[1..])
  }

  /** What can be read before the stream reports its end. */
  function Ahead(s: Source): seq<Byte> {
    s.current + UpToEmpty(s.chunks)
  }

  lemma {:induction false} AheadIsFirst(chunks: seq<seq<Byte>>)
    ensures Flatten(chunks) == UpToEmpty(chunks) + Flatten(BehindEmpty(chunks))
  {
    if chunks != [] && chunks[0] != [] {
      AheadIsFirst(chunks[1..]);
    }
  }

  /** `lost` are the bytes that a read had copied when the native side failed; its caller never learns of them. */
  datatype Out = Data(data: seq<Byte>) | Threw(lost: seq<Byte>)

  /** What `Read` of a span of `count` bytes may do. */
  ghost predicate Step(s: Source, count: nat, s': Source, out: Out) {
    && Consistent(s) && Consistent(s')
    && match out
       case Data(data) =>
         && s'.phase == (if count == 0 || s.phase.Spent? then s.phase else Opened)
         && (if count <= |Ahead(s)| then Takes(s, data, s') && |data| == count
             // the empty chunk is used up
             else data == Ahead(s) && s' == Source([], BehindEmpty(s.chunks), s'.phase))
       case Threw(lost) =>
         && !s.phase.Spent? && |lost| < count
         && (if OpenFails(s.phase, s'.phase) then lost == [] && s' == SPENT
             // the iterator is asked only when the chunk at hand is used up
             else s'.phase.Opened? && s'.current == [] && Beyond(s, s') && Takes(s, lost, s'))
  }

  /** Some chunks were fetched, none of them empty. */
  predicate Beyond(s: Source, s': Source) {
    Fetched(s.chunks, s'.chunks)
  }

  predicate Fetched(chunks: seq<seq<Byte>>, rest: seq<seq<Byte>>)
    decreases |chunks|
  {
    rest == chunks || (chunks != [] && chunks[0] != [] && Fetched(chunks[1..], rest))
  }

  /** The bytes of the chunks before `rest`. */
  function FetchedBytes(chunks: seq<seq<Byte>>, rest: seq<seq<Byte>>): seq<Byte>
    requires Fetched(chunks, rest)
    decreases |chunks|
  {
    if rest == chunks then [] else chunks[0] + FetchedBytes(chunks[1..], rest)
  }

  lemma {:induction false} FetchMore(chunks: seq<seq<Byte>>, rest: seq<seq<Byte>>)
    requires Fetched(chunks, rest) && rest != [] && rest[0] != []
    ensures Fetched(chunks, rest[1..])
    decreases |chunks|
  {
    if rest != chunks {
      FetchMore(chunks[1..], rest);
    }
  }

  /** The front of what is ahead goes. */
  ghost predicate Takes(s: Source, front: seq<Byte>, s': Source) {
    && |front| <= |Ahead(s)| && front == Ahead(s)[..|front|]
    && Ahead(s') == Ahead(s)[|front|..] && BehindEmpty(s'.chunks) == BehindEmpty(s.chunks)
  }

  lemma AllSplits(s: Source)
    ensures All(s) == Ahead(s) + Flatten(BehindEmpty(s.chunks))
  {
    AheadIsFirst(s.chunks);
    Associative(s.current, UpToEmpty(s.chunks), Flatten(BehindEmpty(s.chunks)));
  }

  lemma TakesTheFront(s: Source, front: seq<Byte>, s': Source)
    requires Takes(s, front, s')
    ensures All(s) == front + All(s')
  {
    AllSplits(s);
    AllSplits(s');
    Associative(front, Ahead(s'), Flatten(BehindEmpty(s.chunks)));
    assert Ahead(s) == front + Ahead(s');
  }

  /** A read takes its bytes from the front and is short only when it meets an empty chunk or the end. */
  lemma ReadTakesTheFront(s: Source, count: nat, s': Source, data: seq<Byte>)
    requires Step(s, count, s', Data(data))
    ensures All(s) == data + All(s')
    ensures |data| < count <==> count > |Ahead(s)|
  {
    if count <= |Ahead(s)| {
      TakesTheFront(s, data, s');
    } else {
      AllSplits(s);
    }
  }

  /** A read that throws loses the bytes it had copied; if the request could not be opened, everything is lost. */
  lemma ThrowingReadLoses(s: Source, count: nat, s': Source, lost: seq<Byte>)
    requires Step(s, count, s', Threw(lost))
    ensures |lost| < count
    ensures if OpenFails(s.phase, s'.phase) then lost == [] && All(s') == [] else All(s) == lost + All(s')
  {
    if !OpenFails(s.phase, s'.phase) {
      TakesTheFront(s, lost, s');
    }
  }

  lemma {:induction false} UpToEmptySplits(chunks: seq<seq<Byte>>, rest: seq<seq<Byte>>)
    requires Fetched(chunks, rest)
    ensures UpToEmpty(chunks) == FetchedBytes(chunks, rest) + UpToEmpty(rest)
    decreases |chunks|
  {
    if rest == chunks {
      assert [] + UpToEmpty(rest) == UpToEmpty(rest);
    } else {
      UpToEmptySplits(chunks[1..], rest);
      Associative(chunks[0], FetchedBytes(chunks[1..], rest), UpToEmpty(rest));
    }
  }

  /**
    What it loses is all of the chunk at hand and all chunks it had fetched. So it does not throw if the chunk at hand
    is enough.
    */
  lemma ThrowLosesWholeChunks(s: Source, count: nat, s': Source, lost: seq<Byte>)
    requires Step(s, count, s', Threw(lost)) && !OpenFails(s.phase, s'.phase)
    ensures lost == s.current + FetchedBytes(s.chunks, s'.chunks)
    ensures |s.current| < count
  {
    UpToEmptySplits(s.chunks, s'.chunks);
    var front := s.current + FetchedBytes(s.chunks, s'.chunks);
    Associative(s.current, FetchedBytes(s.chunks, s'.chunks), UpToEmpty(s'.chunks));
    assert Ahead(s) == front + Ahead(s');
    assert |front| == |lost|;
    assert (front + Ahead(s'))[..|front|] == front;
  }

  /** Some read of `count` bytes from here throws and loses bytes. */
  ghost predicate CanLose(s: Source, count: nat) {
    exists s', lost :: Step(s, count, s', Threw(lost)) && lost != []
  }

  /**
    A read can lose bytes by an exception exactly if it asks for more than the chunk at hand has left, and that has
    something left, or else the next chunk is not empty and too short, too. So reads of one byte are safe.
    */
  lemma LossPossibleIff(s: Source, count: nat)
    requires Consistent(s)
    ensures CanLose(s, count) <==> !Safe(s, count)
    ensures count <= 1 ==> Safe(s, count)
  {
    if !Safe(s, count) {
      var s', lost := LosingRead(s, count);
      assert Step(s, count, s', Threw(lost));
    } else if s', lost :| Step(s, count, s', Threw(lost)) && lost != [] {
      SafeReadLosesNothing(s, count, s', lost);
    }
  }

  predicate Safe(s: Source, count: nat) {
    if s.current != [] then count <= |s.current|
    else s.chunks == [] || s.chunks[0] == [] || count <= |s.chunks[0]|
  }

  lemma LosingRead(s: Source, count: nat) returns (s': Source, lost: seq<Byte>)
    requires Consistent(s) && !Safe(s, count)
    ensures Step(s, count, s', Threw(lost)) && lost != []
  {
    if s.current != [] {
      s', lost := Source([], s.chunks, Opened), s.current;
      assert Ahead(s') == UpToEmpty(s.chunks);
    } else {
      s', lost := Source([], s.chunks[1..], Opened), s.chunks[0];
      assert Ahead(s) == s.chunks[0] + UpToEmpty(s.chunks[1..]);
      assert Ahead(s') == UpToEmpty(s.chunks[1..]);
    }
  }

  lemma SafeReadLosesNothing(s: Source, count: nat, s': Source, lost: seq<Byte>)
    requires Step(s, count, s', Threw(lost)) && Safe(s, count)
    ensures lost == []
  {
    if !OpenFails(s.phase, s'.phase) {
      ThrowLosesWholeChunks(s, count, s', lost);
    }
  }

  // ---------- Runs ----------

  datatype Event = Event(count: nat, out: Out)

  ghost predicate IsRun(sources: seq<Source>, run: seq<Event>) {
    |sources| == |run| + 1 && Consistent(sources[0]) && forall i | 0 <= i < |run| :: StepAt(sources, run, i)
  }

  ghost predicate StepAt(sources: seq<Source>, run: seq<Event>, i: nat)
    requires i < |run| < |sources|
  {
    Step(sources[i], run[i].count, sources[i + 1], run[i].out)
  }

  predicate NothingThrown(run: seq<Event>) {
    forall i | 0 <= i < |run| :: run[i].out.Data?
  }

  ghost predicate NoOpenFailed(sources: seq<Source>, run: seq<Event>, n: nat)
    requires n <= |run| < |sources|
  {
    forall i | 0 <= i < n :: !OpenFailsAt(sources, i)
  }

  predicate OpenFailsAt(sources: seq<Source>, i: nat)
    requires i + 1 < |sources|
  {
    OpenFails(sources[i].phase, sources[i + 1].phase)
  }

  /** The bytes that a read took, and those of them that its caller got. */
  function TakenBy(e: Event): seq<Byte> {
    match e.out
    case Data(data) => data
    case Threw(lost) => lost
  }

  function Taken(run: seq<Event>, n: nat): seq<Byte>
    requires n <= |run|
  {
    if n == 0 then [] else Taken(run, n - 1) + TakenBy(run[n - 1])
  }

  function Returned(run: seq<Event>, n: nat): seq<Byte>
    requires n <= |run|
  {
    if n == 0 then [] else Returned(run, n - 1) + if run[n - 1].out.Data? then run[n - 1].out.data else []
  }

  predicate NothingLost(run: seq<Event>, n: nat)
    requires n <= |run|
  {
    forall i | 0 <= i < n && run[i].out.Threw? :: run[i].out.lost == []
  }

  lemma {:induction false} ReturnedIsTakenIff(run: seq<Event>, n: nat)
    requires n <= |run|
    ensures |Returned(run, n)| <= |Taken(run, n)|
    ensures |Returned(run, n)| == |Taken(run, n)| <==> NothingLost(run, n)
    ensures NothingLost(run, n) ==> Returned(run, n) == Taken(run, n)
  {
    if n > 0 {
      ReturnedIsTakenIff(run, n - 1);
    }
  }

  lemma StepTakes(s: Source, e: Event, s': Source)
    requires Step(s, e.count, s', e.out) && !OpenFails(s.phase, s'.phase)
    ensures All(s) == TakenBy(e) + All(s')
    ensures s'.phase.Unopened? ==> TakenBy(e) == []
  {
    match e.out
    case Data(data) => ReadTakesTheFront(s, e.count, s', data);
    case Threw(lost) => ThrowingReadLoses(s, e.count, s', lost);
  }

  /**
    However the reads are sized, and also if some of them throw: together they take the native chunks from the front,
    none twice, as long as the request could be opened.
    */
  lemma {:induction false} ReadsFollowTheChunks(sources: seq<Source>, run: seq<Event>, n: nat)
    requires IsRun(sources, run) && n <= |run| && NoOpenFailed(sources, run, n)
    ensures All(sources[0]) == Taken(run, n) + All(sources[n])
    ensures sources[n].phase.Unopened? ==> Taken(run, n) == []
  {
    if n == 0 {
      assert [] + All(sources[0]) == All(sources[0]);
    } else {
      ReadsFollowTheChunks(sources, run, n - 1);
      assert StepAt(sources, run, n - 1) && !OpenFailsAt(sources, n - 1);
      StepTakes(sources[n - 1], run[n - 1], sources[n]);
      Associative(Taken(run, n - 1), TakenBy(run[n - 1]), All(sources[n]));
    }
  }

  /** If it could not, no read ever returns a byte: the request is opened before the first chunk. */
  lemma {:induction false} FailedOpenReturnsNothing(sources: seq<Source>, run: seq<Event>, n: nat)
    requires IsRun(sources, run) && n <= |run| && !NoOpenFailed(sources, run, n)
    ensures sources[n] == SPENT && Taken(run, n) == []
  {
    assert StepAt(sources, run, n - 1);
    if NoOpenFailed(sources, run, n - 1) {
      ReadsFollowTheChunks(sources, run, n - 1);
      assert OpenFailsAt(sources, n - 1);
    } else {
      FailedOpenReturnsNothing(sources, run, n - 1);
    }
  }

  /** Without data behind an empty chunk there is none later. */
  lemma {:induction false} StaysWhole(sources: seq<Source>, run: seq<Event>, n: nat)
    requires IsRun(sources, run) && n <= |run| && Flatten(BehindEmpty(sources[0].chunks)) == []
    ensures Flatten(BehindEmpty(sources[n].chunks)) == []
  {
    if n > 0 {
      StaysWhole(sources, run, n - 1);
      assert StepAt(sources, run, n - 1);
      StepStaysWhole(sources[n - 1], run[n - 1].count, sources[n], run[n - 1].out);
    }
  }

  lemma StepStaysWhole(s: Source, count: nat, s': Source, out: Out)
    requires Step(s, count, s', out) && Flatten(BehindEmpty(s.chunks)) == []
    ensures Flatten(BehindEmpty(s'.chunks)) == []
  {
    if s'.chunks == BehindEmpty(s.chunks) {
      AheadIsFirst(s'.chunks);
    }
  }

  /** The last read asked for something and got nothing. */
  predicate EndsEmpty(run: seq<Event>) {
    run != [] && run[|run| - 1].count > 0 && run[|run| - 1].out == Data([])
  }

  lemma {:induction false} NothingIsLeft(sources: seq<Source>, run: seq<Event>)
    requires IsRun(sources, run) && EndsEmpty(run) && Flatten(BehindEmpty(sources[0].chunks)) == []
    ensures All(sources[|run|]) == []
  {
    var n := |run| - 1;
    assert StepAt(sources, run, n);
    StaysWhole(sources, run, n);
  }

  /**
    Reading until a read returns nothing, with or without exceptions between, returns everything if and only if no
    read had copied bytes when it threw, and the request could be opened or there was nothing to read. Here no data
    follows an empty chunk.
    */
  lemma {:induction false} WholeFileIff(sources: seq<Source>, run: seq<Event>)
    requires IsRun(sources, run) && EndsEmpty(run) && Flatten(BehindEmpty(sources[0].chunks)) == []
    ensures Returned(run, |run|) == All(sources[0]) <==>
            NothingLost(run, |run|) && (NoOpenFailed(sources, run, |run|) || All(sources[0]) == [])
  {
    var n := |run|;
    ReturnedIsTakenIff(run, n);
    NothingIsLeft(sources, run);
    if NoOpenFailed(sources, run, n) {
      ReadsFollowTheChunks(sources, run, n);
      assert All(sources[0]) == Taken(run, n);
    } else {
      FailedOpenReturnsNothing(sources, run, n);
      assert Returned(run, n) == [];
    }
  }

  /** With safe reads, exceptions or not, everything comes exactly if the request was opened or nothing is there. */
  lemma {:induction false} SafeReadsGetTheFileIff(sources: seq<Source>, run: seq<Event>)
    requires IsRun(sources, run) && EndsEmpty(run) && Flatten(BehindEmpty(sources[0].chunks)) == []
    requires forall i | 0 <= i < |run| :: Safe(sources[i], run[i].count)
    ensures Returned(run, |run|) == All(sources[0]) <==>
            NoOpenFailed(sources, run, |run|) || All(sources[0]) == []
  {
    forall i | 0 <= i < |run| && run[i].out.Threw? ensures run[i].out.lost == [] {
      assert StepAt(sources, run, i);
      SafeReadLosesNothing(sources[i], run[i].count, sources[i + 1], run[i].out.lost);
    }
    WholeFileIff(sources, run);
  }

  /** Three bytes in two chunks, of which the second is lost: its chunk was at hand when a read of three bytes threw. */
  lemma {:induction false} ExceptionLosesByte(a: Byte, b: Byte, c: Byte)
    returns (sources: seq<Source>, run: seq<Event>)
    ensures IsRun(sources, run) && sources[0] == Source([], [[a, b], [c]], Unopened) && EndsEmpty(run)
    ensures run == [Event(1, Data([a])), Event(3, Threw([b])), Event(3, Data([c])), Event(3, Data([]))]
    ensures Returned(run, 4) == [a, c]
  {
    var s0, s1 := Source([], [[a, b], [c]], Unopened), Source([b], [[c]], Opened);
    var s2, s3 := Source([], [[c]], Opened), Source([], [], Opened);
    sources := [s0, s1, s2, s3, s3];
    run := [Event(1, Data([a])), Event(3, Threw([b])), Event(3, Data([c])), Event(3, Data([]))];
    LosingSteps(a, b, c);
    LastSteps(c);
    assert Returned(run, 1) == [] + [a];
    assert Returned(run, 2) == [a] + [];
    assert Returned(run, 3) == [a] + [c];
    assert Returned(run, 4) == [a, c] + [];
  }

  lemma LosingSteps(a: Byte, b: Byte, c: Byte)
    ensures Step(Source([], [[a, b], [c]], Unopened), 1, Source([b], [[c]], Opened), Data([a]))
    ensures Step(Source([b], [[c]], Opened), 3, Source([], [[c]], Opened), Threw([b]))
  {
    AheadOfTwo([a, b], [c]);
    AheadOfOne([c]);
    assert Ahead(Source([], [[a, b], [c]], Unopened)) == [a, b, c];
    assert Ahead(Source([b], [[c]], Opened)) == [b, c] && Ahead(Source([], [[c]], Opened)) == [c];
  }

  lemma LastSteps(c: Byte)
    ensures Step(Source([], [[c]], Opened), 3, Source([], [], Opened), Data([c]))
    ensures Step(Source([], [], Opened), 3, Source([], [], Opened), Data([]))
  {
    AheadOfOne([c]);
    assert Ahead(Source([], [[c]], Opened)) == [c] && Ahead(Source([], [], Opened)) == [];
  }

  lemma AheadOfOne(x: seq<Byte>)
    ensures x != [] ==> UpToEmpty([x]) == x && BehindEmpty([x]) == []
  {
    assert [x][1..] == [];
  }

  lemma AheadOfTwo(x: seq<Byte>, y: seq<Byte>)
    ensures x != [] && y != [] ==> UpToEmpty([x, y]) == x + y && BehindEmpty([x, y]) == []
  {
    assert [x, y][1..] == [y];
    AheadOfOne(y);
  }

  lemma {:induction false} NothingThrownMeansOpened(sources: seq<Source>, run: seq<Event>)
    requires IsRun(sources, run) && NothingThrown(run)
    ensures NoOpenFailed(sources, run, |run|) && NothingLost(run, |run|)
  {
    forall i | 0 <= i < |run| ensures !OpenFailsAt(sources, i) {
      assert StepAt(sources, run, i);
    }
  }

  /** Reading until a read returns nothing, without exceptions, returns everything. */
  lemma {:induction false} ReadToEnd(sources: seq<Source>, run: seq<Event>)
    requires IsRun(sources, run) && NothingThrown(run) && EndsEmpty(run)
    requires Flatten(BehindEmpty(sources[0].chunks)) == []
    ensures Returned(run, |run|) == All(sources[0])
  {
    NothingThrownMeansOpened(sources, run);
    WholeFileIff(sources, run);
  }

  /** Reading until a read returns nothing returns everything, whatever the sizes of the reads. */
  ghost predicate EndIsReliable(s: Source) {
    forall sources: seq<Source>, run: seq<Event>
      | IsRun(sources, run) && NothingThrown(run) && EndsEmpty(run) && sources[0] == s ::
      Returned(run, |run|) == All(s)
  }

  /** That is so exactly if no data follows an empty chunk. */
  lemma {:induction false} EndIsReliableIff(s: Source)
    requires Consistent(s)
    ensures EndIsReliable(s) <==> Flatten(BehindEmpty(s.chunks)) == []
  {
    if Flatten(BehindEmpty(s.chunks)) == [] {
      forall sources: seq<Source>, run: seq<Event>
        | IsRun(sources, run) && NothingThrown(run) && EndsEmpty(run) && sources[0] == s
        ensures Returned(run, |run|) == All(s)
      {
        ReadToEnd(sources, run);
      }
    } else {
      var sources, run := UnreliableRun(s);
      assert IsRun(sources, run) && NothingThrown(run) && EndsEmpty(run);
      AllSplits(s);
    }
  }

  /** One read takes exactly what is ahead of the empty chunk, the next one meets it. */
  lemma {:induction false} UnreliableRun(s: Source) returns (sources: seq<Source>, run: seq<Event>)
    requires Consistent(s) && Flatten(BehindEmpty(s.chunks)) != []
    ensures IsRun(sources, run) && NothingThrown(run) && EndsEmpty(run) && sources[0] == s
    ensures Returned(run, |run|) == Ahead(s)
  {
    var n := |Ahead(s)|;
    var s1 := Source([], DropToEmpty(s.chunks), if n == 0 then s.phase else Opened);
    var s2 := Source([], BehindEmpty(s.chunks), Opened);
    sources := [s, s1, s2];
    run := [Event(n, Data(Ahead(s))), Event(1, Data([]))];
    assert Ahead(s1) == [];
    assert Ahead(s)[..n] == Ahead(s) && Ahead(s)[n..] == [];
    assert Step(s, n, s1, run[0].out) && Step(s1, 1, s2, run[1].out);
    assert Returned(run, 1) == [] + Ahead(s) == Ahead(s);
    assert Returned(run, 2) == Returned(run, 1) + [];
  }

  function DropToEmpty(chunks: seq<seq<Byte>>): (r: seq<seq<Byte>>)
    ensures UpToEmpty(r) == [] && BehindEmpty(r) == BehindEmpty(chunks)
  {
    if chunks == [] || chunks[0] == [] then chunks else DropToEmpty(chunks[1..])
  }

  /** A file that is not empty can look empty: an exception, and then the end. */
  lemma {:induction false} FailedOpenLooksEmpty(chunks: seq<seq<Byte>>, count: nat)
    returns (sources: seq<Source>, run: seq<Event>)
    requires count > 0
    ensures IsRun(sources, run) && sources[0] == Source([], chunks, Unopened)
    ensures run == [Event(count, Threw([])), Event(count, Data([]))]
  {
    sources := [Source([], chunks, Unopened), SPENT, SPENT];
    run := [Event(count, Threw([])), Event(count, Data([]))];
    assert Step(sources[0], count, SPENT, Threw([])) && Step(SPENT, count, SPENT, Data([]));
  }

  // ---------- The loop of `Read` ----------

  /** `total` bytes of what was ahead are copied; the rest is still ahead. */
  ghost predicate Reading(s0: Source, total: nat, count: nat, s: Source) {
    && total <= count && total <= |Ahead(s0)| && Consistent(s0) && Consistent(s)
    && (s.phase == s0.phase || (s.phase.Opened? && !s0.phase.Spent?))
    && (total > 0 ==> s.phase.Opened?) && (count == 0 ==> s == s0)
    && Ahead(s) == Ahead(s0)[total..] && BehindEmpty(s.chunks) == BehindEmpty(s0.chunks)
    && Beyond(s0, s)
  }

  lemma MetEmpty(s0: Source, total: nat, count: nat, s: Source)
    requires Reading(s0, total, count, s) && s.current == [] && (s.chunks == [] || s.chunks[0] == [])
    ensures total == |Ahead(s0)|
    ensures (if s.chunks == [] then [] else s.chunks[1..]) == BehindEmpty(s0.chunks)
  {
    assert Ahead(s) == [];
  }

  ghost predicate Copied(s0: Source, part: seq<Byte>) {
    |part| <= |Ahead(s0)| && part == Ahead(s0)[..|part|]
  }

  lemma ReadStarts(s0: Source, count: nat)
    requires Consistent(s0)
    ensures Reading(s0, 0, count, s0) && Copied(s0, [])
  {
  }

  lemma FailsHere(s0: Source, total: nat, count: nat, s: Source, s': Source)
    requires Reading(s0, total, count, s) && total < count && s.current == [] && !s.phase.Spent?
    requires (s' == SPENT && s.phase.Unopened?) || s' == s.(phase := Opened)
    ensures Step(s0, count, s', Threw(Ahead(s0)[..total]))
  {
  }

  lemma ReadIsFull(s0: Source, data: seq<Byte>, s: Source)
    requires Reading(s0, |data|, |data|, s) && Copied(s0, data)
    ensures Step(s0, |data|, s, Data(data))
  {
  }

  lemma NextChunk(s0: Source, total: nat, count: nat, s: Source)
    requires Reading(s0, total, count, s) && s.current == [] && s.chunks != [] && s.chunks[0] != []
    requires count > 0 && !s.phase.Spent?
    ensures Reading(s0, total, count, Source(s.chunks[0], s.chunks[1..], Opened))
  {
    assert Ahead(s) == [] + (s.chunks[0] + UpToEmpty(s.chunks[1..]));
    FetchMore(s0.chunks, s.chunks);
  }

  lemma ReadPart(s0: Source, total: nat, count: nat, s: Source, n: nat)
    requires Reading(s0, total, count, s) && 1 <= n <= |s.current| && total + n <= count
    ensures total + n <= |Ahead(s0)|
    ensures Reading(s0, total + n, count, s.(current := s.current[n..]))
    ensures Ahead(s0)[..total] + s.current[..n] == Ahead(s0)[..total + n]
  {
    assert |Ahead(s)| == |Ahead(s0)| - total;
    assert s.current[..n] == Ahead(s)[..n];
    assert Ahead(s.(current := s.current[n..])) == Ahead(s)[n..];
    assert Ahead(s0)[total..][n..] == Ahead(s0)[total + n..];
    assert Ahead(s0)[total..][..n] == Ahead(s0)[total..total + n];
    assert Ahead(s0)[..total] + Ahead(s0)[total..total + n] == Ahead(s0)[..total + n];
  }

  // ---------- The code ----------

  /** The native iterator behind the handle. After its last chunk it answers with empty ones. */
  class NativeStream {
    var chunks: seq<seq<Byte>>
    var phase: Phase
    var freed: bool
    var failures: nat           // how many calls have failed

    constructor (chunks: seq<seq<Byte>>)
      ensures this.chunks == chunks && phase.Unopened? && !freed
    {
      this.chunks, phase, freed, failures := chunks, Unopened, false, 0;
    }

    /** `None` is an error. The error of a request that cannot be opened uses the only range up. */
    method ReadNext() returns (chunk: Option<seq<Byte>>)
      requires !freed && (phase.Spent? ==> chunks == [])
      modifies this`chunks, this`phase, this`failures
      ensures failures == old(failures) + if chunk.None? then 1 else 0
      ensures phase.Spent? ==> chunks == []
      ensures chunk.None? ==>
                !old(phase).Spent? && (OpenFails(old(phase), phase) || (phase.Opened? && chunks == old(chunks)))
      ensures chunk.Some? ==>
                && phase == (if old(phase).Spent? then Spent else Opened)
                && (if old(chunks) == [] then chunk.value == [] && chunks == []
                    else chunk.value == old(chunks)[0] && chunks == old(chunks)[1..])
    {
      if phase.Spent? {
        return Some([]);
      }
      if phase.Unopened? {
        if * {
          phase, chunks, failures := Spent, [], failures + 1;
          return None;
        }
        phase := Opened;
      }
      if * {
        failures := failures + 1;
        return None;
      }
      if chunks == [] {
        return Some([]);
      }
      chunk := Some(chunks[0]);
      chunks := chunks[1..];
    }

    method Free()
      requires !freed
      modifies this`freed
      ensures freed
    {
      freed := true;
    }
  }

  class OperatorInputStream {
    const native: NativeStream
    var chunk: seq<Byte>        // a missing chunk is an empty one
    var chunkOffset: nat
    var disposed: bool

    ghost predicate Valid()
      reads this, native
    {
      && chunkOffset <= |chunk| && (disposed <==> native.freed)
      && Consistent(View())
    }

    ghost function View(): Source
      reads this, native
    {
      Source(if chunkOffset <= |chunk| then chunk[chunkOffset..] else [], native.chunks, native.phase)
    }

    constructor (native: NativeStream)
      requires !native.freed && native.phase.Unopened?
      ensures Valid() && !disposed && this.native == native && View() == Source([], native.chunks, Unopened)
    {
      this.native := native;
      chunk, chunkOffset, disposed := [], 0, false;
    }

    /** The check of the source's constructor. A zero handle is `None` and gives no stream. */
    static method Open(handle: Option<NativeStream>) returns (stream: Option<OperatorInputStream>)
      requires handle.Some? ==> !handle.value.freed && handle.value.phase.Unopened?
      ensures stream.Some? <==> handle.Some?
      ensures stream.Some? ==>
                && stream.value.Valid() && !stream.value.disposed
                && stream.value.View() == Source([], handle.value.chunks, Unopened)
    {
      if handle.None? {
        return None;
      }
      var s := new OperatorInputStream(handle.value);
      return Some(s);
    }

    /** Copies from the current chunk to `destination[at..]`. */
    method CopyChunk(destination: array<Byte>, at: nat) returns (n: nat)
      requires Valid() && chunkOffset < |chunk| && at < destination.Length
      modifies this`chunkOffset, destination
      ensures Valid() && 1 <= n <= destination.Length - at && n <= |old(View()).current|
      ensures View() == old(View()).(current := old(View()).current[n..])
      ensures destination[..at + n] == old(destination[..at]) + old(View()).current[..n]
    {
      n := Min(|chunk| - chunkOffset, destination.Length - at);
      ghost var current := chunk[chunkOffset..];
      CopyInto(destination, at, chunk[chunkOffset..chunkOffset + n]);
      assert chunk[chunkOffset..chunkOffset + n] == current[..n];
      chunkOffset := chunkOffset + n;
      assert chunk[chunkOffset..] == current[n..];
    }

    /** One turn of the loop of `Read` that finds the chunk used up; `out` is set when the loop ends. */
    method Fetch(ghost s0: Source, count: nat, total: nat, ghost front: seq<Byte>) returns (ended: Ended)
      requires Valid() && !disposed && chunkOffset == |chunk| && total < count
      requires Reading(s0, total, count, View()) && |front| == total && Copied(s0, front)
      modifies this`chunk, this`chunkOffset, native`chunks, native`phase, native`failures
      ensures Valid() && (ended.MetError? <==> native.failures != old(native.failures))
      ensures ended.Goes? ==> Reading(s0, total, count, View()) && chunkOffset < |chunk|
      ensures ended.MetEnd? ==> Step(s0, count, View(), Data(front))
      ensures ended.MetError? ==> Step(s0, count, View(), Threw(front))
    {
      ghost var s := View();
      var next := native.ReadNext();
      if next.None? {
        FailsHere(s0, total, count, s, View());
        return MetError;
      }
      chunk := next.value;
      chunkOffset := 0;
      if |chunk| == 0 {
        MetEmpty(s0, total, count, s);
        assert View() == Source([], BehindEmpty(s0.chunks), native.phase);
        assert front == Ahead(s0);
        return MetEnd;
      }
      NextChunk(s0, total, count, s);
      ended := Goes;
    }

    /** One turn of the loop of `Read` that finds something in the chunk. */
    method Copy(ghost s0: Source, destination: array<Byte>, total: nat) returns (n: nat)
      requires Valid() && !disposed && chunkOffset < |chunk| && total < destination.Length
      requires Reading(s0, total, destination.Length, View()) && Copied(s0, destination[..total])
      modifies this`chunkOffset, destination
      ensures Valid() && 1 <= n <= destination.Length - total
      ensures Reading(s0, total + n, destination.Length, View())
      ensures Copied(s0, destination[..total + n])
    {
      ghost var s := View();
      n := CopyChunk(destination, total);
      ReadPart(s0, total, destination.Length, s, n);
    }

    /** The loop of `Read`. */
    method ReadLoop(destination: array<Byte>) returns (out: Out)
      requires Valid() && !disposed
      modifies this`chunk, this`chunkOffset, native`chunks, native`phase, native`failures, destination
      ensures Valid() && Step(old(View()), destination.Length, View(), out)
      ensures out.Threw? <==> native.failures != old(native.failures)
      ensures out.Data? ==> |out.data| <= destination.Length && destination[..|out.data|] == out.data
    {
      ghost var s0 := View();
      var total := 0;
      ReadStarts(s0, destination.Length);
      assert destination[..0] == [];
      while total < destination.Length
        invariant Valid() && !disposed && total <= destination.Length && native.failures == old(native.failures)
        invariant Reading(s0, total, destination.Length, View())
        invariant Copied(s0, destination[..total])
        decreases destination.Length - total, if chunkOffset < |chunk| then 0 else 1
      {
        if chunkOffset < |chunk| {
          var n := Copy(s0, destination, total);
          total := total + n;
          continue;
        }
        ghost var front := destination[..total];
        var ended := Fetch(s0, destination.Length, total, front);
        assert destination[..total] == front;
        if ended.MetError? {
          return Threw(destination[..total]);
        }
        if ended.MetEnd? {
          return Data(destination[..total]);
        }
      }
      ReadIsFull(s0, destination[..total], View());
      out := Data(destination[..total]);
    }

    /** `None` when the stream was disposed. */
    method Read(destination: array<Byte>) returns (out: Option<Out>)
      requires Valid()
      modifies this`chunk, this`chunkOffset, native`chunks, native`phase, native`failures, destination
      ensures Valid() && (out.None? <==> disposed)
      ensures disposed ==> View() == old(View())
      ensures out.Some? ==> Step(old(View()), destination.Length, View(), out.value)
      ensures out.Some? && out.value.Threw? <==> native.failures != old(native.failures)
      ensures out.Some? && out.value.Data? ==>
                |out.value.data| <= destination.Length && destination[..|out.value.data|] == out.value.data
    {
      if disposed {
        return None;
      }
      var read := ReadLoop(destination);
      out := Some(read);
    }

    method Dispose()
      requires Valid()
      modifies this`disposed, this`chunk, this`chunkOffset, native`freed
      ensures Valid() && disposed
    {
      if !disposed {
        native.Free();
        chunk, chunkOffset := [], 0;
        disposed := true;
      }
    }
  }
}
