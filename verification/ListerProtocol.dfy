/**
  Concurrent `lister_next` calls of the asynchronous C++ binding on one lister id.

  A call looks the id up under the storage lock and clones the `Arc`, then waits for the lister's own
  mutex and keeps it while the stream produces the next entry. Deleting the id only affects later
  lookups. The end of the listing and a path travel as the same type: a string.

  The lister itself gives up at its first error: from then on it answers every call with the end, as it does once it
  has come to the real end. A call that is dropped while the lister works loses nothing, since the lister keeps the
  request and the next call goes on with it.
  */
module ListerProtocol {
  import opened Common

  type Path = string

  /** What a call answers before it is turned into a string or an exception. */
  datatype Answer = Entry(path: Path) | End | InvalidId | StreamError

  /** The string that the caller receives, if it receives one. */
  function Wire(a: Answer): Option<string> {
    match a
    case Entry(p) => Some(p)
    case End => Some("")
    case _ => None
  }

  datatype Reply = Reply(caller: nat, answer: Answer)

  datatype Phase = HoldsArc | InStream

  /** `log` lists the replies in the order of the stream's answers. */
  datatype State = State(
    entries: seq<Path>,
    cursor: nat,
    errored: bool,            // an error was answered
    ended: bool,              // the real end was answered
    stored: bool,
    lockedBy: Option<nat>,
    calls: map<nat, Phase>,
    log: seq<Reply>)

  datatype Event =
    | Lookup(caller: nat)
    | Acquire(caller: nat)
    | Yield(caller: nat)      // the stream answers with an entry or with its end
    | Fail(caller: nat)       // the stream answers with an error
    | Cancel(caller: nat)     // the future is dropped
    | Delete                  // `delete_lister` with the storage lock free

  function Fresh(entries: seq<Path>): State {
    State(entries, 0, false, false, true, None, map[], [])
  }

  predicate Enabled(s: State, e: Event) {
    match e
    case Lookup(c) => c !in s.calls
    case Acquire(c) => c in s.calls && s.calls[c].HoldsArc? && s.lockedBy.None?
    case Yield(c) => c in s.calls && s.calls[c].InStream? && s.lockedBy == Some(c)
    case Fail(c) => c in s.calls && s.calls[c].InStream? && s.lockedBy == Some(c) && !s.errored && !s.ended
    case Cancel(c) => c in s.calls
    case Delete => true
  }

  function Apply(s: State, e: Event): State
    requires Enabled(s, e)
  {
    match e
    case Lookup(c) =>
      if s.stored then s.(calls := s.calls[c := HoldsArc])
      else s.(log := s.log + [Reply(c, InvalidId)])
    case Acquire(c) => s.(lockedBy := Some(c), calls := s.calls[c := InStream])
    case Yield(c) =>
      var s' := s.(lockedBy := None, calls := s.calls - {c});
      if s.errored then s'.(log := s.log + [Reply(c, End)])
      else if s.cursor < |s.entries| then
        s'.(cursor := s.cursor + 1, log := s.log + [Reply(c, Entry(s.entries[s.cursor]))])
      else s'.(ended := true, log := s.log + [Reply(c, End)])
    case Fail(c) =>
      s.(errored := true, lockedBy := None, calls := s.calls - {c}, log := s.log + [Reply(c, StreamError)])
    case Cancel(c) => s.(lockedBy := if s.lockedBy == Some(c) then None else s.lockedBy, calls := s.calls - {c})
    case Delete => s.(stored := false)
  }

  function Exec(s: State, run: seq<Event>): Option<State>
    decreases |run|
  {
    if run == [] then Some(s)
    else if Enabled(s, run[0]) then Exec(Apply(s, run[0]), run[1..])
    else None
  }

  predicate ReachedBy(entries: seq<Path>, run: seq<Event>, s: State) {
    Exec(Fresh(entries), run) == Some(s)
  }

  /** The entries that were handed out, in order of the answers. */
  function Delivered(log: seq<Reply>): seq<Path> {
    if log == [] then []
    else
      var before := Delivered(log[..|log| - 1]);
      match log[|log| - 1].answer
      case Entry(p) => before + [p]
      case _ => before
  }

  /** What the callers together see: the strings that are not empty. */
  function Seen(log: seq<Reply>): seq<string> {
    if log == [] then []
    else
      var before := Seen(log[..|log| - 1]);
      match Wire(log[|log| - 1].answer)
      case Some(text) => if text == "" then before else before + [text]
      case None => before
  }

  lemma DeliveredAppend(log: seq<Reply>, r: Reply)
    ensures Delivered(log + [r]) == Delivered(log) + if r.answer.Entry? then [r.answer.path] else []
    ensures Seen(log + [r]) == Seen(log) + match Wire(r.answer)
                                           case Some(text) => if text == "" then [] else [text]
                                           case None => []
  {
    assert (log + [r])[..|log|] == log;
  }

  /** Some call was answered with an error of the stream. */
  predicate Failed(log: seq<Reply>) {
    exists k | 0 <= k < |log| :: log[k].answer.StreamError?
  }

  /** Without an error before it, an end was announced only after everything was handed out. */
  ghost predicate EndsAreLast(entries: seq<Path>, log: seq<Reply>) {
    forall k | 0 <= k < |log| && log[k].answer.End? :: Failed(log[..k]) || Delivered(log[..k]) == entries
  }

  /** Nothing is handed out after an error, and no second error is. */
  ghost predicate ErrorsAreLast(log: seq<Reply>) {
    forall j, k | 0 <= j < k < |log| && log[j].answer.StreamError? :: log[k].answer.End? || log[k].answer.InvalidId?
  }

  ghost predicate Inv(s: State) {
    && s.cursor <= |s.entries|
    && Delivered(s.log) == s.entries[..s.cursor]
    && EndsAreLast(s.entries, s.log)
    && ErrorsAreLast(s.log)
    && (s.errored <==> Failed(s.log))
    && LocksInv(s)
  }

  /** The lock is held by exactly the call that is inside the stream. */
  ghost predicate LocksInv(s: State) {
    && (forall c | c in s.calls :: s.calls[c].InStream? <==> s.lockedBy == Some(c))
    && (s.lockedBy.Some? ==> s.lockedBy.value in s.calls)
  }

  lemma LogGrows(s: State, r: Reply)
    requires Inv(s)
    requires r.answer.End? ==> s.errored || s.cursor == |s.entries|
    requires r.answer.Entry? || r.answer.StreamError? ==> !s.errored
    ensures EndsAreLast(s.entries, s.log + [r]) && ErrorsAreLast(s.log + [r])
    ensures Failed(s.log + [r]) <==> s.errored || r.answer.StreamError?
  {
    var log' := s.log + [r];
    forall k | 0 <= k < |log'| && log'[k].answer.End? ensures Failed(log'[..k]) || Delivered(log'[..k]) == s.entries {
      if k < |s.log| {
        assert log'[..k] == s.log[..k];
      } else {
        assert log'[..k] == s.log;
      }
    }
    if s.errored {
      var k :| 0 <= k < |s.log| && s.log[k].answer.StreamError?;
      assert log'[k].answer.StreamError?;
    }
    if r.answer.StreamError? {
      assert log'[|s.log|].answer.StreamError?;
    }
  }

  lemma StepKeepsInv(s: State, e: Event)
    requires Inv(s) && Enabled(s, e)
    ensures Inv(Apply(s, e)) && Apply(s, e).entries == s.entries
  {
    var s' := Apply(s, e);
    StepKeepsLocks(s, e);
    match e
    case Lookup(c) => AnswerKeepsInv(s, Reply(c, InvalidId));
    case Yield(c) => AnswerKeepsInv(s, s'.log[|s.log|]);
    case Fail(c) => AnswerKeepsInv(s, Reply(c, StreamError));
    case _ =>
  }

  lemma AnswerKeepsInv(s: State, r: Reply)
    requires Inv(s) && (r.answer.End? ==> s.errored || s.cursor == |s.entries|)
    requires r.answer.StreamError? ==> !s.errored
    requires r.answer.Entry? ==> !s.errored && s.cursor < |s.entries| && r.answer.path == s.entries[s.cursor]
    ensures EndsAreLast(s.entries, s.log + [r]) && ErrorsAreLast(s.log + [r])
    ensures Failed(s.log + [r]) <==> s.errored || r.answer.StreamError?
    ensures Delivered(s.log + [r]) == s.entries[..if r.answer.Entry? then s.cursor + 1 else s.cursor]
  {
    DeliveredAppend(s.log, r);
    LogGrows(s, r);
  }

  lemma StepKeepsLocks(s: State, e: Event)
    requires LocksInv(s) && Enabled(s, e)
    ensures LocksInv(Apply(s, e))
  {
  }

  lemma {:induction false} RunKeepsInv(s: State, run: seq<Event>)
    requires Inv(s) && Exec(s, run).Some?
    ensures Inv(Exec(s, run).value) && Exec(s, run).value.entries == s.entries
    decreases |run|
  {
    if run != [] {
      StepKeepsInv(s, run[0]);
      RunKeepsInv(Apply(s, run[0]), run[1..]);
    }
  }

  /**
    However calls interleave, are dropped, fail, or race with a delete: the entries go out one by one, in order, each
    in exactly one reply. Without an error, no reply announces the end before all of them are out; after an error,
    nothing more goes out.
    */
  lemma {:induction false} EachEntryOnceInOrder(entries: seq<Path>, run: seq<Event>, s: State)
    requires ReachedBy(entries, run, s)
    ensures s.cursor <= |entries| && Delivered(s.log) == entries[..s.cursor]
    ensures forall k | 0 <= k < |s.log| && s.log[k].answer.End? ::
              Failed(s.log[..k]) || Delivered(s.log[..k]) == entries
    ensures ErrorsAreLast(s.log)
  {
    RunKeepsInv(Fresh(entries), run);
  }

  /**
    What a call inside the stream is answered, told from the replies so far: the entry that is next, or the end if all
    are out or an error was answered. The call is over then, and the lock is free.
    */
  lemma {:induction false} YieldAnswers(entries: seq<Path>, run: seq<Event>, s: State, c: nat)
    requires ReachedBy(entries, run, s) && Enabled(s, Yield(c))
    ensures var s', before := Apply(s, Yield(c)), |Delivered(s.log)|;
            && before <= |entries|
            && s'.log == s.log + [Reply(c, if Failed(s.log) || before == |entries| then End
                                           else Entry(entries[before]))]
            && c !in s'.calls && s'.lockedBy.None?
  {
    RunKeepsInv(Fresh(entries), run);
  }

  /** Open calls do not block each other: one of them can be answered, or can take the lock. */
  lemma {:induction false} SomeCallCanGoOn(entries: seq<Path>, run: seq<Event>, s: State, c: nat)
    requires ReachedBy(entries, run, s) && c in s.calls
    ensures exists d :: d in s.calls && (Enabled(s, Acquire(d)) || Enabled(s, Yield(d)))
  {
    RunKeepsInv(Fresh(entries), run);
    var d := if s.lockedBy.Some? then s.lockedBy.value else c;
    assert d in s.calls && (Enabled(s, Acquire(d)) || Enabled(s, Yield(d)));
  }

  /** The id was deleted. */
  predicate HasDelete(run: seq<Event>) {
    exists k | 0 <= k < |run| :: run[k].Delete?
  }

  lemma {:induction false} StoredIff(s: State, run: seq<Event>)
    requires Exec(s, run).Some?
    ensures Exec(s, run).value.stored <==> s.stored && !HasDelete(run)
    decreases |run|
  {
    if run != [] {
      StoredIff(Apply(s, run[0]), run[1..]);
      assert forall k | 0 < k < |run| :: run[k] == run[1..][k - 1];
      if HasDelete(run[1..]) {
        var k :| 0 <= k < |run[1..]| && run[1..][k].Delete?;
        assert run[k + 1].Delete?;
      }
    }
  }

  /** A call is refused at once exactly if the id was deleted before; calls that are under way go on as they were. */
  lemma {:induction false} RefusedIffDeleted(entries: seq<Path>, run: seq<Event>, s: State, c: nat)
    requires ReachedBy(entries, run, s) && c !in s.calls
    ensures var s' := Apply(s, Lookup(c));
            if HasDelete(run) then s'.log == s.log + [Reply(c, InvalidId)] && s'.calls == s.calls
            else s'.log == s.log && s'.calls == s.calls[c := HoldsArc]
    ensures Apply(s, Delete).calls == s.calls && Apply(s, Delete).lockedBy == s.lockedBy
    ensures Apply(s, Delete).log == s.log
  {
    StoredIff(Fresh(entries), run);
  }

  function Lookups(run: seq<Event>, c: nat): nat {
    if run == [] then 0 else (if run[0] == Lookup(c) then 1 else 0) + Lookups(run[1..], c)
  }

  function Cancels(run: seq<Event>, c: nat): nat {
    if run == [] then 0 else (if run[0] == Cancel(c) then 1 else 0) + Cancels(run[1..], c)
  }

  function RepliesTo(log: seq<Reply>, c: nat): nat {
    if log == [] then 0
    else RepliesTo(log[..|log| - 1], c) + if log[|log| - 1].caller == c then 1 else 0
  }

  function Open(s: State, c: nat): nat {
    if c in s.calls then 1 else 0
  }

  lemma StepCountsReplies(s: State, e: Event, c: nat)
    requires Enabled(s, e)
    ensures RepliesTo(Apply(s, e).log, c) + Open(Apply(s, e), c) + (if e == Cancel(c) then 1 else 0) ==
            RepliesTo(s.log, c) + Open(s, c) + if e == Lookup(c) then 1 else 0
  {
    var s' := Apply(s, e);
    match e
    case Lookup(d) => RepliesAppend(s.log, Reply(d, InvalidId), c);
    case Yield(d) => RepliesAppend(s.log, s'.log[|s.log|], c);
    case Fail(d) => RepliesAppend(s.log, Reply(d, StreamError), c);
    case _ =>
  }

  lemma RepliesAppend(log: seq<Reply>, r: Reply, c: nat)
    ensures RepliesTo(log + [r], c) == RepliesTo(log, c) + if r.caller == c then 1 else 0
  {
    assert (log + [r])[..|log|] == log;
  }

  /** Every call is answered exactly once, unless its future is dropped: none twice, and none with another's answer. */
  lemma {:induction false} EveryCallAnsweredOnce(s: State, run: seq<Event>, c: nat)
    requires Exec(s, run).Some?
    ensures var s' := Exec(s, run).value;
            RepliesTo(s'.log, c) + Open(s', c) + Cancels(run, c) == RepliesTo(s.log, c) + Open(s, c) + Lookups(run, c)
    decreases |run|
  {
    if run != [] {
      StepCountsReplies(s, run[0], c);
      EveryCallAnsweredOnce(Apply(s, run[0]), run[1..], c);
    }
  }

  // ---------- The empty string as the end mark ----------

  /** A caller who takes the empty string for the end is right about it. */
  ghost predicate EmptyMeansEnd(entries: seq<Path>, log: seq<Reply>) {
    forall k | 0 <= k < |log| && Wire(log[k].answer) == Some("") :: Delivered(log[..k]) == entries
  }

  lemma {:induction false} FrozenAfterError(log: seq<Reply>, j: nat, k: nat)
    requires ErrorsAreLast(log) && j < k <= |log| && log[j].answer.StreamError?
    ensures Delivered(log[..k]) == Delivered(log[..j])
    decreases k
  {
    assert log[..k][..k - 1] == log[..k - 1];
    if k > j + 1 {
      FrozenAfterError(log, j, k - 1);
    }
  }

  lemma {:induction false} DeliveredGrows(log: seq<Reply>, k: nat, n: nat)
    requires k <= n <= |log|
    ensures Delivered(log[..k]) <= Delivered(log[..n])
    decreases n
  {
    if k < n {
      DeliveredGrows(log, k, n - 1);
      assert log[..n][..n - 1] == log[..n - 1];
    }
  }

  /**
    An empty string at reply `k` tells the truth if and only if it is not the path of an entry and every error before
    it came when all entries were out already.
    */
  lemma {:induction false} EmptyReplyIsRightIff(entries: seq<Path>, run: seq<Event>, s: State, k: nat)
    requires ReachedBy(entries, run, s) && k < |s.log| && Wire(s.log[k].answer) == Some("")
    ensures Delivered(s.log[..k]) == entries <==>
            && s.log[k].answer.End?
            && forall j | 0 <= j < k && s.log[j].answer.StreamError? :: Delivered(s.log[..j]) == entries
  {
    EachEntryOnceInOrder(entries, run, s);
    if s.log[k].answer.Entry? {
      assert s.log[..k + 1][..k] == s.log[..k];
      assert |Delivered(s.log[..k + 1])| == |Delivered(s.log[..k])| + 1;
      DeliveredGrows(s.log, k + 1, |s.log|);
      assert s.log[..|s.log|] == s.log;
    } else {
      forall j | 0 <= j < k && s.log[j].answer.StreamError?
        ensures Delivered(s.log[..j]) == Delivered(s.log[..k])
      {
        FrozenAfterError(s.log, j, k);
      }
      if Failed(s.log[..k]) {
        var j :| 0 <= j < k && s.log[..k][j].answer.StreamError?;
        assert s.log[j].answer.StreamError?;
      }
    }
  }

  lemma {:induction false} SeenIsDelivered(log: seq<Reply>)
    requires forall k | 0 <= k < |log| && log[k].answer.Entry? :: log[k].answer.path != ""
    ensures Seen(log) == Delivered(log)
  {
    if log != [] {
      var front := log[..|log| - 1];
      assert forall k | 0 <= k < |front| :: front[k] == log[k];
      SeenIsDelivered(front);
    }
  }

  lemma {:induction false} DeliveredHolds(log: seq<Reply>, k: nat)
    requires k < |log| && log[k].answer.Entry?
    ensures log[k].answer.path in Delivered(log)
    decreases |log|
  {
    if k == |log| - 1 {
      assert Delivered(log)[|Delivered(log)| - 1] == log[k].answer.path;
    } else {
      DeliveredHolds(log[..|log| - 1], k);
    }
  }

  /** With non-empty paths the callers together see exactly the entries; without errors, the empty string is the end. */
  lemma {:induction false} NonEmptyPathsAreSafe(entries: seq<Path>, run: seq<Event>, s: State)
    requires ReachedBy(entries, run, s) && "" !in entries
    ensures s.cursor <= |entries| && Seen(s.log) == entries[..s.cursor]
    ensures !Failed(s.log) ==> EmptyMeansEnd(entries, s.log)
  {
    EachEntryOnceInOrder(entries, run, s);
    forall k | 0 <= k < |s.log| && s.log[k].answer.Entry? ensures s.log[k].answer.path != "" {
      DeliveredHolds(s.log, k);
    }
    SeenIsDelivered(s.log);
    if !Failed(s.log) {
      forall k | 0 <= k < |s.log| && Wire(s.log[k].answer) == Some("") ensures Delivered(s.log[..k]) == entries {
        assert !Failed(s.log[..k]);
      }
    }
  }

  /** The state after one caller made `n` calls, one after the other. */
  function AfterCalls(entries: seq<Path>, n: nat): State
    requires n <= |entries|
  {
    State(entries, n, false, false, true, None, map[], seq(n, k requires 0 <= k < n => Reply(0, Entry(entries[k]))))
  }

  lemma {:induction false} CallsReach(entries: seq<Path>, n: nat) returns (run: seq<Event>)
    requires n <= |entries|
    ensures ReachedBy(entries, run, AfterCalls(entries, n)) && !HasFail(run)
  {
    if n == 0 {
      run := [];
      assert AfterCalls(entries, 0) == Fresh(entries);
      return;
    }
    var before := CallsReach(entries, n - 1);
    var s := AfterCalls(entries, n - 1);
    run := before + [Lookup(0), Acquire(0), Yield(0)];
    ExecConcat(Fresh(entries), before, [Lookup(0), Acquire(0), Yield(0)]);
    OneCall(s, Yield(0));
    assert Apply(Locked(s), Yield(0)).log == AfterCalls(entries, n).log;
    forall k | 0 <= k < |run| ensures !run[k].Fail? {
      assert k < |before| ==> run[k] == before[k];
    }
  }

  /** Caller 0 is inside the stream and nobody else makes a call. */
  function Locked(s: State): State {
    s.(lockedBy := Some(0), calls := map[0 := InStream])
  }

  lemma OneCall(s: State, last: Event)
    requires last == Yield(0) || last == Fail(0)
    requires s.calls == map[] && s.lockedBy.None? && s.stored && Enabled(Locked(s), last)
    ensures Exec(s, [Lookup(0), Acquire(0), last]) == Some(Apply(Locked(s), last))
    ensures Apply(Locked(s), last).calls == map[]
    ensures Apply(Locked(s), last).lockedBy.None? && Apply(Locked(s), last).stored
  {
    var s1 := Apply(s, Lookup(0));
    assert Apply(s1, Acquire(0)) == Locked(s);
    var s3 := Apply(Locked(s), last);
    assert Exec(s, [Lookup(0), Acquire(0), last]) == Exec(s1, [Acquire(0), last]);
    assert Exec(s1, [Acquire(0), last]) == Exec(Locked(s), [last]);
    assert Exec(Locked(s), [last]) == Exec(s3, []);
    assert s3.calls == map[];
  }

  lemma {:induction false} ExecConcat(s: State, a: seq<Event>, b: seq<Event>)
    requires Exec(s, a).Some?
    ensures Exec(s, a + b) == Exec(Exec(s, a).value, b)
    decreases |a|
  {
    if a == [] {
      assert a + b == b;
    } else {
      assert (a + b)[1..] == a[1..] + b;
      ExecConcat(Apply(s, a[0]), a[1..], b);
    }
  }

  predicate HasFail(run: seq<Event>) {
    exists k | 0 <= k < |run| :: run[k].Fail?
  }

  lemma {:induction false} NoFailNoError(s: State, run: seq<Event>)
    requires Exec(s, run).Some? && !Failed(s.log) && !HasFail(run)
    ensures !Failed(Exec(s, run).value.log)
    decreases |run|
  {
    if run != [] {
      assert !run[0].Fail?;
      var s' := Apply(s, run[0]);
      assert !Failed(s'.log) by {
        if k :| 0 <= k < |s'.log| && s'.log[k].answer.StreamError? {
          assert k == |s.log|;
        }
      }
      assert forall k | 0 <= k < |run[1..]| :: run[1..][k] == run[k + 1];
      NoFailNoError(s', run[1..]);
    }
  }

  /** The empty string marks the end in every run, or in every run in which the stream does not fail. */
  ghost predicate AlwaysSafe(entries: seq<Path>, evenIfItFails: bool) {
    forall run: seq<Event>, s: State | ReachedBy(entries, run, s) && (HasFail(run) ==> evenIfItFails) ::
      EmptyMeansEnd(entries, s.log)
  }

  /** As long as the stream does not fail, the end mark is safe exactly if the listing has no empty path. */
  lemma {:induction false} EndMarkIsSafeIff(entries: seq<Path>)
    ensures AlwaysSafe(entries, false) <==> "" !in entries
  {
    if "" in entries {
      var i :| 0 <= i < |entries| && entries[i] == "";
      var run := CallsReach(entries, i + 1);
      var s := AfterCalls(entries, i + 1);
      EachEntryOnceInOrder(entries, run, s);
      assert Wire(s.log[i].answer) == Some("");
      var run' := CallsReach(entries, i);
      EachEntryOnceInOrder(entries, run', AfterCalls(entries, i));
      assert s.log[..i] == AfterCalls(entries, i).log;
      assert Delivered(s.log[..i]) == entries[..i] != entries;
    } else {
      forall run: seq<Event>, s: State | ReachedBy(entries, run, s) && !HasFail(run)
        ensures EmptyMeansEnd(entries, s.log)
      {
        NonEmptyPathsAreSafe(entries, run, s);
        NoFailNoError(Fresh(entries), run);
      }
    }
  }

  /** One caller's call fails; its next call is answered with the empty string although nothing was handed out. */
  lemma ErrorHidesTheRest(entries: seq<Path>) returns (run: seq<Event>, s: State)
    ensures ReachedBy(entries, run, s)
    ensures run == [Lookup(0), Acquire(0), Fail(0), Lookup(0), Acquire(0), Yield(0)]
    ensures s.log == [Reply(0, StreamError), Reply(0, End)] && Delivered(s.log) == [] && Delivered(s.log[..1]) == []
  {
    var failed := Apply(Locked(Fresh(entries)), Fail(0));
    s := Apply(Locked(failed), Yield(0));
    OneCall(Fresh(entries), Fail(0));
    OneCall(failed, Yield(0));
    var first, second := [Lookup(0), Acquire(0), Fail(0)], [Lookup(0), Acquire(0), Yield(0)];
    ExecConcat(Fresh(entries), first, second);
    run := first + second;
    assert failed.log == [Reply(0, StreamError)] && s.log == [Reply(0, StreamError), Reply(0, End)];
    NothingDelivered(s.log);
  }

  lemma NothingDelivered(log: seq<Reply>)
    requires |log| == 2 && !log[0].answer.Entry? && !log[1].answer.Entry?
    ensures Delivered(log) == [] && Delivered(log[..1]) == []
  {
    assert [] + [log[0]] == log[..1] && log[..1] + [log[1]] == log;
    DeliveredAppend([], log[0]);
    DeliveredAppend(log[..1], log[1]);
  }

  /** If the stream may fail, the end mark is safe only for a listing without entries. */
  lemma {:induction false} EndMarkSurvivesErrorsIff(entries: seq<Path>)
    ensures AlwaysSafe(entries, true) <==> entries == []
  {
    if entries == [] {
      forall run: seq<Event>, s: State | ReachedBy(entries, run, s) ensures EmptyMeansEnd(entries, s.log) {
        EachEntryOnceInOrder(entries, run, s);
        forall k | 0 <= k < |s.log| ensures Delivered(s.log[..k]) == [] {
          DeliveredGrows(s.log, k, |s.log|);
          assert s.log[..|s.log|] == s.log;
        }
      }
    } else {
      var run, s := ErrorHidesTheRest(entries);
      assert Wire(s.log[1].answer) == Some("");
    }
  }
}
