/**
  `ConcurrentTasks` of the core: tasks run in the background and finish in any order, and their results are
  collected in the order in which the inputs were accepted. It carries the multipart, block and position
  writers, the chunked readers and the multipart copy.

  `execute` and `next` are asynchronous: where the source awaits the first task of the queue, a call is recorded as
  `waiting` and goes on when that task has finished, unless its future is dropped before. Background tasks finish at
  any time in between.
  */
module ConcurrentTasks {
  import opened Common

  /** How a background task stands; errors are temporary or not. */
  datatype Status<O> = Running | Done(output: O) | Temporary | Permanent

  datatype Task<I, O> = Task(input: I, status: Status<O>)

  /** An output together with the input it belongs to. */
  datatype Output<I, O> = Output(input: I, output: O)

  datatype Waiting<I> = ToExecute(input: I) | ToNext

  /** What a call returned. */
  datatype Reply<I, O> = Accepted | Got(output: Output<I, O>) | Drained | Failed

  /**
    `completed` is the shared counter `completed_but_unretrieved`; `dropped` counts the tasks that were dropped while
    they ran and may still raise it. `accepted`, `delivered` and `cleared` are history: the inputs for which `execute`
    returned success and which no `clear` has dropped, the outputs that `next` returned, and whether `clear` was called.
    */
  datatype State<I, O> = State(
    concurrent: nat,
    prefetch: nat,
    tasks: seq<Task<I, O>>,
    results: seq<Output<I, O>>,
    completed: int,
    dropped: nat,
    errored: bool,
    waiting: Option<Waiting<I>>,
    accepted: seq<I>,
    delivered: seq<Output<I, O>>,
    cleared: bool)

  function New<I, O>(concurrent: nat, prefetch: nat): State<I, O> {
    State(concurrent, prefetch, [], [], 0, 0, false, None, [], [], false)
  }

  datatype Event<I, O> =
    | Finish(k: nat, status: Status<O>)
    | Execute(input: I, direct: Status<O>)   // `direct` is what the task gives when it runs in this thread
    | Next
    | Resume
    | Drop                                   // the future of the waiting call is dropped
    | Clear
    | Straggle                               // a dropped task ends all the same

  predicate HasRemaining<I, O>(s: State<I, O>) {
    |s.tasks| < s.concurrent + Min(s.completed, s.prefetch)
  }

  predicate Enabled<I, O>(s: State<I, O>, e: Event<I, O>) {
    match e
    case Finish(k, status) => k < |s.tasks| && s.tasks[k].status.Running? && !status.Running?
    case Execute(_, direct) => s.waiting.None? && !direct.Running?
    case Next => s.waiting.None?
    case Resume => s.waiting.Some? && s.tasks != [] && !s.tasks[0].status.Running?
    case Drop => s.waiting.Some?
    case Clear => s.waiting.None?
    case Straggle => s.dropped > 0
  }

  function Push<I, O>(s: State<I, O>, input: I): State<I, O> {
    s.(tasks := s.tasks + [Task(input, Running)], accepted := s.accepted + [input])
  }

  /** The new state, and the reply if a call came to its end. */
  function Apply<I, O>(s: State<I, O>, e: Event<I, O>): (State<I, O>, Option<Reply<I, O>>)
    requires Enabled(s, e)
  {
    match e
    case Finish(k, status) =>
      (s.(tasks := s.tasks[k := Task(s.tasks[k].input, status)], completed := s.completed + 1), None)
    case Execute(input, direct) =>
      if s.errored then (s, Some(Failed))
      else if s.concurrent <= 1 then
        if direct.Done?
        then
          (s.(results := s.results + [Output(input, direct.output)], accepted := s.accepted + [input]),
           Some(Accepted))
        else (s, Some(Failed))
      else if HasRemaining(s) then (Push(s, input), Some(Accepted))
      else (s.(waiting := Some(ToExecute(input))), None)
    case Next =>
      if s.errored then (s, Some(Failed))
      else if s.results != [] then
        (s.(results := s.results[1..], delivered := s.delivered + [s.results[0]]), Some(Got(s.results[0])))
      else if s.tasks != [] then (s.(waiting := Some(ToNext)), None)
      else (s, Some(Drained))
    case Resume => Resumed(s.(waiting := None, completed := s.completed - 1), s.waiting.value)
    case Drop => (s.(waiting := None), None)
    case Clear => (DropAll(s).(accepted := Forget(s.accepted, |s.delivered|), cleared := true), None)
    case Straggle => (s.(completed := s.completed + 1, dropped := s.dropped - 1), None)
  }

  function Forget<I>(accepted: seq<I>, delivered: nat): seq<I> {
    if delivered <= |accepted| then accepted[..delivered] else accepted
  }

  /** `clear` of the source: running tasks are canceled, finished ones forgotten; the counter stays. */
  function DropAll<I, O>(s: State<I, O>): State<I, O> {
    var running := RunningCount(s.tasks);
    s.(tasks := [], results := [], dropped := s.dropped + if running > 0 then running else 0)
  }

  /** A waiting call goes on with its finished first task. */
  function Resumed<I, O>(s: State<I, O>, w: Waiting<I>): (State<I, O>, Option<Reply<I, O>>)
    requires s.tasks != [] && !s.tasks[0].status.Running?
  {
    var input := s.tasks[0].input;
    match s.tasks[0].status
    case Done(o) =>
      var rest := s.(tasks := s.tasks[1..]);
      (match w
       case ToExecute(i) => (Push(rest.(results := s.results + [Output(input, o)]), i), Some(Accepted))
       case ToNext => (rest.(delivered := s.delivered + [Output(input, o)]), Some(Got(Output(input, o)))))
    // a temporary error is reported, and the task starts again in its place
    case Temporary => (s.(tasks := s.tasks[0 := Task(input, Running)]), Some(Failed))
    case _ => (DropAll(s).(errored := true), Some(Failed))
  }

  function Exec<I, O>(s: State<I, O>, run: seq<Event<I, O>>): Option<State<I, O>>
    decreases |run|
  {
    if run == [] then Some(s)
    else if Enabled(s, run[0]) then Exec(Apply(s, run[0]).0, run[1..])
    else None
  }

  // ---------- Order ----------

  function TaskInputs<I, O>(tasks: seq<Task<I, O>>): (r: seq<I>)
    ensures |r| == |tasks| && forall k | 0 <= k < |r| :: r[k] == tasks[k].input
  {
    seq(|tasks|, k requires 0 <= k < |tasks| => tasks[k].input)
  }

  function OutputInputs<I, O>(outputs: seq<Output<I, O>>): (r: seq<I>)
    ensures |r| == |outputs| && forall k | 0 <= k < |r| :: r[k] == outputs[k].input
  {
    seq(|outputs|, k requires 0 <= k < |outputs| => outputs[k].input)
  }

  /** The inputs in the order in which their outputs were or will be returned. */
  ghost function InOrder<I, O>(s: State<I, O>): seq<I> {
    OutputInputs(s.delivered) + OutputInputs(s.results) + TaskInputs(s.tasks)
  }

  ghost predicate OrderInv<I, O>(s: State<I, O>) {
    && (!s.errored ==> InOrder(s) == s.accepted)
    && OutputInputs(s.delivered) <= s.accepted
    // a call waits only for the tasks of a queue that runs concurrently; `next` waits only when no result is ready
    && (s.waiting.Some? ==> s.tasks != [] && !s.errored)
    && (s.waiting.Some? && s.waiting.value.ToNext? ==> s.results == [])
    && (s.waiting.Some? && s.waiting.value.ToExecute? ==> s.concurrent > 1)
    && (s.concurrent <= 1 ==> s.tasks == [])
  }

  ghost predicate CountInv<I, O>(s: State<I, O>) {
    && s.completed >= Finished(s.tasks)
    && (!s.cleared && !s.errored ==> s.completed == Finished(s.tasks) && s.dropped == 0)
  }

  function Finished<I, O>(tasks: seq<Task<I, O>>): nat {
    if tasks == [] then 0 else (if tasks[0].status.Running? then 0 else 1) + Finished(tasks[1..])
  }

  function RunningCount<I, O>(tasks: seq<Task<I, O>>): int {
    |tasks| - Finished(tasks)
  }

  lemma {:induction false} FinishedAppend<I, O>(tasks: seq<Task<I, O>>, t: Task<I, O>)
    ensures Finished(tasks + [t]) == Finished(tasks) + if t.status.Running? then 0 else 1
  {
    if tasks == [] {
      assert tasks + [t] == [t];
      assert [t][1..] == [];
    } else {
      FinishedAppend(tasks[1..], t);
      assert (tasks + [t])[1..] == tasks[1..] + [t];
    }
  }

  lemma {:induction false} FinishedUpdate<I, O>(tasks: seq<Task<I, O>>, k: nat, t: Task<I, O>)
    requires k < |tasks|
    ensures Finished(tasks[k := t]) ==
            Finished(tasks) - (if tasks[k].status.Running? then 0 else 1) + (if t.status.Running? then 0 else 1)
  {
    if k == 0 {
      assert tasks[0 := t][1..] == tasks[1..];
    } else {
      FinishedUpdate(tasks[1..], k - 1, t);
      assert tasks[k := t][1..] == tasks[1..][k - 1 := t];
    }
  }

  lemma {:induction false} FinishedBound<I, O>(tasks: seq<Task<I, O>>)
    ensures Finished(tasks) <= |tasks|
  {
    if tasks != [] {
      FinishedBound(tasks[1..]);
    }
  }

  /** The first task leaves the queue of tasks and its input moves one place forward. */
  lemma FirstTaskMoves<I>(front: seq<I>, x: I, rest: seq<I>)
    ensures (front + [x]) + rest == front + ([x] + rest)
  {
  }

  lemma ExecuteTakesFirst<I, O>(s: State<I, O>, i: I)
    requires OrderInv(s) && s.tasks != [] && s.tasks[0].status.Done? && !s.errored && s.waiting.None?
    requires s.concurrent > 1
    ensures OrderInv(Resumed(s, ToExecute(i)).0)
  {
    var s', x := Resumed(s, ToExecute(i)).0, s.tasks[0].input;
    var rest := TaskInputs(s.tasks[1..]);
    var before := OutputInputs(s.delivered) + OutputInputs(s.results);
    assert TaskInputs(s.tasks) == [x] + rest;
    assert OutputInputs(s'.results) == OutputInputs(s.results) + [x];
    assert TaskInputs(s'.tasks) == rest + [i];
    Associative(OutputInputs(s.delivered), OutputInputs(s.results), [x]);
    FirstTaskMoves(before, x, rest);
    Associative(before + [x], rest, [i]);
    assert InOrder(s') == InOrder(s) + [i];
  }

  lemma NextTakesFirst<I, O>(s: State<I, O>)
    requires OrderInv(s) && s.tasks != [] && s.tasks[0].status.Done? && !s.errored && s.waiting.None?
    requires s.concurrent > 1 && s.results == []
    ensures OrderInv(Resumed(s, ToNext).0)
  {
    var s', x := Resumed(s, ToNext).0, s.tasks[0].input;
    var before, rest := OutputInputs(s.delivered), TaskInputs(s.tasks[1..]);
    assert TaskInputs(s.tasks) == [x] + rest;
    assert OutputInputs(s'.delivered) == before + [x];
    assert before + [] == before && (before + [x]) + [] == before + [x];
    FirstTaskMoves(before, x, rest);
    assert InOrder(s') == InOrder(s) == (before + [x]) + rest;
  }

  lemma ResumedKeepsOrder<I, O>(s: State<I, O>, w: Waiting<I>)
    requires OrderInv(s) && s.tasks != [] && !s.tasks[0].status.Running? && !s.errored
    requires w.ToNext? ==> s.results == []
    requires s.concurrent > 1 && s.waiting.None?
    ensures OrderInv(Resumed(s, w).0)
  {
    match s.tasks[0].status
    case Done(_) =>
      if w.ToExecute? {
        ExecuteTakesFirst(s, w.input);
      } else {
        NextTakesFirst(s);
      }
    case Temporary => assert TaskInputs(Resumed(s, w).0.tasks) == TaskInputs(s.tasks);
    case _ =>
  }

  lemma ExecuteKeepsOrder<I, O>(s: State<I, O>, e: Event<I, O>)
    requires OrderInv(s) && CountInv(s) && Enabled(s, e) && e.Execute?
    ensures OrderInv(Apply(s, e).0)
  {
    var s' := Apply(s, e).0;
    if |s'.results| > |s.results| {
      assert OutputInputs(s'.results) == OutputInputs(s.results) + [e.input];
      assert TaskInputs(s.tasks) == [];
    } else if |s'.tasks| > |s.tasks| {
      assert TaskInputs(s'.tasks) == TaskInputs(s.tasks) + [e.input];
    }
  }

  lemma NextKeepsOrder<I, O>(s: State<I, O>)
    requires OrderInv(s) && Enabled(s, Next)
    ensures OrderInv(Apply(s, Next).0)
  {
    var s' := Apply(s, Next).0;
    if |s'.delivered| > |s.delivered| {
      var x := s.results[0].input;
      assert OutputInputs(s'.delivered) == OutputInputs(s.delivered) + [x];
      assert OutputInputs(s.results) == [x] + OutputInputs(s'.results);
      FirstTaskMoves(OutputInputs(s.delivered), x, OutputInputs(s'.results));
      assert InOrder(s') == InOrder(s);
      assert OutputInputs(s'.delivered) <= InOrder(s);
    }
  }

  lemma StepKeepsOrder<I, O>(s: State<I, O>, e: Event<I, O>)
    requires OrderInv(s) && CountInv(s) && Enabled(s, e)
    ensures OrderInv(Apply(s, e).0)
  {
    match e
    case Finish(k, _) => assert TaskInputs(Apply(s, e).0.tasks) == TaskInputs(s.tasks);
    case Execute(_, _) => ExecuteKeepsOrder(s, e);
    case Next => NextKeepsOrder(s);
    case Resume => ResumedKeepsOrder(s.(waiting := None, completed := s.completed - 1), s.waiting.value);
    case Clear => assert InOrder(Apply(s, e).0) == OutputInputs(s.delivered);
    case _ =>
  }

  lemma StepKeepsCount<I, O>(s: State<I, O>, e: Event<I, O>)
    requires CountInv(s) && Enabled(s, e)
    ensures CountInv(Apply(s, e).0)
  {
    match e
    case Finish(k, status) => FinishedUpdate(s.tasks, k, Task(s.tasks[k].input, status));
    case Execute(input, _) => FinishedAppend(s.tasks, Task(input, Running));
    case Resume =>
      FinishedUpdate(s.tasks, 0, Task(s.tasks[0].input, Running));
      if s.waiting.value.ToExecute? {
        FinishedAppend(s.tasks[1..], Task(s.waiting.value.input, Running));
      }
    case _ =>
  }

  lemma {:induction false} RunKeepsOrder<I, O>(s: State<I, O>, run: seq<Event<I, O>>)
    requires OrderInv(s) && CountInv(s) && Exec(s, run).Some?
    ensures OrderInv(Exec(s, run).value) && CountInv(Exec(s, run).value)
    decreases |run|
  {
    if run != [] {
      StepKeepsOrder(s, run[0]);
      StepKeepsCount(s, run[0]);
      RunKeepsOrder(Apply(s, run[0]).0, run[1..]);
    }
  }

  /**
    Whatever the order in which tasks finish, whichever of them fail for a while, and whichever waiting calls are
    dropped: the outputs come in the order in which the inputs were accepted, none is lost and none comes twice,
    apart from the inputs that `clear` has dropped.
    A permanent error keeps what was returned before it in order, too.
    */
  lemma {:induction false} FirstInFirstOut<I, O>(concurrent: nat, prefetch: nat, run: seq<Event<I, O>>, s: State<I, O>)
    requires Exec(New<I, O>(concurrent, prefetch), run) == Some(s)
    ensures OutputInputs(s.delivered) <= s.accepted
    ensures !s.errored ==>
              OutputInputs(s.delivered) + OutputInputs(s.results) + TaskInputs(s.tasks) == s.accepted
  {
    RunKeepsOrder(New<I, O>(concurrent, prefetch), run);
  }

  // ---------- Outputs ----------

  /** The output that an event produces, in the background or in the caller's thread, with its input. */
  ghost function ProducedBy<I, O>(s: State<I, O>, e: Event<I, O>): set<Output<I, O>>
    requires Enabled(s, e)
  {
    match e
    case Finish(k, Done(o)) => {Output(s.tasks[k].input, o)}
    case Execute(i, Done(o)) => {Output(i, o)}
    case _ => {}
  }

  ghost function Produced<I, O>(s: State<I, O>, run: seq<Event<I, O>>): set<Output<I, O>>
    decreases |run|
  {
    if run == [] || !Enabled(s, run[0]) then {}
    else ProducedBy(s, run[0]) + Produced(Apply(s, run[0]).0, run[1..])
  }

  /** All outputs in the queue and all that left it are among the given ones. */
  ghost predicate Among<I, O>(s: State<I, O>, outputs: set<Output<I, O>>) {
    && (forall k | 0 <= k < |s.delivered| :: s.delivered[k] in outputs)
    && (forall k | 0 <= k < |s.results| :: s.results[k] in outputs)
    && (forall k | 0 <= k < |s.tasks| && s.tasks[k].status.Done? ::
          Output(s.tasks[k].input, s.tasks[k].status.output) in outputs)
  }

  lemma StepStaysAmong<I, O>(s: State<I, O>, e: Event<I, O>, outputs: set<Output<I, O>>)
    requires Among(s, outputs) && Enabled(s, e)
    ensures Among(Apply(s, e).0, outputs + ProducedBy(s, e))
  {
    match e
    case Resume => assert s.tasks[0].status.Done? ==> Output(s.tasks[0].input, s.tasks[0].status.output) in outputs;
    case _ =>
  }

  /** What `next` returns for an input is what a task produced for that very input. */
  lemma {:induction false} OutputsBelongToTheirInputs<I, O>(s: State<I, O>, run: seq<Event<I, O>>,
                                                           outputs: set<Output<I, O>>)
    requires Among(s, outputs) && Exec(s, run).Some?
    ensures Among(Exec(s, run).value, outputs + Produced(s, run))
    decreases |run|
  {
    if run == [] {
      assert outputs + {} == outputs;
    } else {
      StepStaysAmong(s, run[0], outputs);
      OutputsBelongToTheirInputs(Apply(s, run[0]).0, run[1..], outputs + ProducedBy(s, run[0]));
      assert outputs + ProducedBy(s, run[0]) + Produced(Apply(s, run[0]).0, run[1..]) == outputs + Produced(s, run);
    }
  }

  // ---------- What a caller sees of one call ----------

  /** The queue as its caller knows it. */
  datatype Queue<I> = Queue(accepted: seq<I>, delivered: nat, broken: bool)

  function ViewOf<I, O>(s: State<I, O>): Queue<I> {
    Queue(s.accepted, |s.delivered|, s.errored)
  }

  ghost predicate ReplyOk<I, O>(q: Queue<I>, input: Option<I>, reply: Reply<I, O>, q': Queue<I>) {
    match reply
    // only `execute` accepts, and it accepts its own input
    case Accepted => input.Some? && !q.broken && q' == q.(accepted := q.accepted + [input.value])
    case Got(o) =>
      input.None? && !q.broken && q.delivered < |q.accepted|
      && o.input == q.accepted[q.delivered] && q' == q.(delivered := q.delivered + 1)
    case Drained => input.None? && !q.broken && q.delivered == |q.accepted| && q' == q
    case Failed => q'.accepted == q.accepted && q'.delivered == q.delivered && (q.broken ==> q'.broken)
  }

  ghost function WaitingInput<I, O>(s: State<I, O>): Option<I> {
    if s.waiting.Some? && s.waiting.value.ToExecute? then Some(s.waiting.value.input) else None
  }

  /** The input of the call that an event starts or ends. */
  ghost function CallInput<I, O>(s: State<I, O>, e: Event<I, O>): Option<I> {
    match e
    case Execute(input, _) => Some(input)
    case Resume => WaitingInput(s)
    case Drop => WaitingInput(s)
    case _ => None
  }

  /**
    Every reply is what a plain first-in-first-out queue would answer. Events without a reply, such as background
    tasks finishing or a call being dropped, change nothing that a caller knows.
    */
  lemma {:induction false} RepliesAreThoseOfAQueue<I, O>(s: State<I, O>, e: Event<I, O>)
    requires OrderInv(s) && Enabled(s, e) && !e.Clear?
    ensures var (s', reply) := Apply(s, e);
            if reply.Some? then ReplyOk(ViewOf(s), CallInput(s, e), reply.value, ViewOf(s'))
            else ViewOf(s') == ViewOf(s)
  {
    match e
    case Next =>
      if !s.errored && s.results != [] {
        assert InOrder(s)[|s.delivered|] == s.results[0].input;
      } else if !s.errored && s.tasks == [] {
        assert |InOrder(s)| == |s.delivered|;
      }
    case Resume =>
      if s.waiting.value.ToNext? {
        assert InOrder(s)[|s.delivered|] == s.tasks[0].input;
      }
    case _ =>
  }

  /**
    What each event answers, and when. `execute` fails at once if the queue is broken or the task that it runs itself
    fails, and is accepted at once if there is room; `next` fails at once if the queue is broken, or takes what is
    ready. A call that waits fails exactly if the first task has failed, and a permanent failure breaks the queue.
    */
  lemma {:induction false} RepliesIff<I, O>(s: State<I, O>, e: Event<I, O>)
    requires Enabled(s, e)
    ensures var (s', reply) := Apply(s, e);
            match e
            case Execute(input, direct) =>
              && (reply == Some(Failed) <==> s.errored || (s.concurrent <= 1 && !direct.Done?))
              && (reply == Some(Accepted) <==>
                    && !s.errored
                    && if s.concurrent <= 1 then direct.Done?
                       else |s.tasks| < s.concurrent + Min(s.completed, s.prefetch))
              && (s'.waiting == Some(ToExecute(input)) <==> reply.None?)
            case Next =>
              && (reply == Some(Failed) <==> s.errored)
              && (s.results != [] && !s.errored ==> reply == Some(Got(s.results[0])))
              && (reply == Some(Drained) <==> !s.errored && s.results == [] && s.tasks == [])
              && (s'.waiting == Some(ToNext) <==> reply.None?)
            case Resume =>
              && s'.waiting.None?
              && (reply == Some(Failed) <==> !s.tasks[0].status.Done?)
              && (s.waiting.value.ToExecute? ==> (reply == Some(Accepted) <==> s.tasks[0].status.Done?))
              && (s.waiting.value.ToNext? && s.tasks[0].status.Done? ==>
                    reply == Some(Got(Output(s.tasks[0].input, s.tasks[0].status.output))))
            case _ => reply.None?
    ensures Apply(s, e).0.errored <==> s.errored || (e.Resume? && s.tasks[0].status.Permanent?)
  {
  }

  /** How a call ended: by the event `last`, in the state `before`. A call whose future is dropped counts as failed. */
  ghost predicate Ended<I, O>(q: Queue<I>, input: Option<I>, before: State<I, O>, last: Event<I, O>,
                              reply: Reply<I, O>, s': State<I, O>) {
    && ViewOf(before) == q
    && Enabled(before, last) && (last.Execute? || last.Next? || last.Resume? || last.Drop?)
    && CallInput(before, last) == input
    && s' == Apply(before, last).0
    && if last.Drop? then reply == Failed else Apply(before, last).1 == Some(reply)
  }

  /** The event is one that ends a call in failure. */
  ghost predicate FailsBy<I, O>(before: State<I, O>, last: Event<I, O>) {
    match last
    case Execute(_, direct) => before.errored || (before.concurrent <= 1 && !direct.Done?)
    case Next => before.errored
    case Resume => before.tasks != [] && !before.tasks[0].status.Done?
    case Drop => true
    case _ => false
  }

  lemma {:induction false} FailsIff<I, O>(q: Queue<I>, input: Option<I>, before: State<I, O>, last: Event<I, O>,
                                          reply: Reply<I, O>, s': State<I, O>)
    requires Ended(q, input, before, last, reply, s')
    ensures reply.Failed? <==> FailsBy(before, last)
  {
    RepliesIff(before, last);
  }

  // ---------- How many tasks run at once ----------

  /** The queue never grows beyond the two limits together. */
  ghost predicate LengthInv<I, O>(s: State<I, O>) {
    |s.tasks| <= s.concurrent + s.prefetch
  }

  lemma {:induction false} RunKeepsLength<I, O>(s: State<I, O>, run: seq<Event<I, O>>)
    requires LengthInv(s) && Exec(s, run).Some?
    ensures LengthInv(Exec(s, run).value)
    ensures Exec(s, run).value.concurrent == s.concurrent && Exec(s, run).value.prefetch == s.prefetch
    decreases |run|
  {
    if run != [] {
      RunKeepsLength(Apply(s, run[0]).0, run[1..]);
    }
  }

  /** The field `concurrent` is documented as the maximum number of concurrent tasks. */
  ghost predicate WithinLimit<I, O>(s: State<I, O>) {
    RunningCount(s.tasks) <= s.concurrent
  }

  ghost predicate LimitHolds<I, O>(concurrent: nat, prefetch: nat, run: seq<Event<I, O>>) {
    Exec(New<I, O>(concurrent, prefetch), run).Some? ==> WithinLimit(Exec(New<I, O>(concurrent, prefetch), run).value)
  }

  /** The queue after `n` calls of `execute` while no task has finished. */
  ghost function Filled<I, O>(concurrent: nat, prefetch: nat, n: nat, i: I): State<I, O> {
    New<I, O>(concurrent, prefetch).(tasks := seq(n, _ => Task(i, Running)), accepted := seq(n, _ => i))
  }

  lemma {:induction false} NoneFinished<I, O>(tasks: seq<Task<I, O>>)
    requires forall k | 0 <= k < |tasks| :: tasks[k].status.Running?
    ensures Finished(tasks) == 0
  {
    if tasks != [] {
      NoneFinished(tasks[1..]);
    }
  }

  lemma {:induction false} ExecAppend<I, O>(s: State<I, O>, run: seq<Event<I, O>>, e: Event<I, O>)
    requires Exec(s, run).Some? && Enabled(Exec(s, run).value, e)
    ensures Exec(s, run + [e]) == Some(Apply(Exec(s, run).value, e).0)
    decreases |run|
  {
    if run == [] {
      assert run + [e] == [e] && [e][1..] == [];
      assert Exec(Apply(s, e).0, []) == Some(Apply(s, e).0);
    } else {
      assert (run + [e])[1..] == run[1..] + [e];
      ExecAppend(Apply(s, run[0]).0, run[1..], e);
    }
  }

  /** `execute` only when there is room, as the chunked reader calls it; tasks fail for a while only if `retries`. */
  ghost predicate Polite<I, O>(s: State<I, O>, run: seq<Event<I, O>>, retries: bool)
    decreases |run|
  {
    run != [] && Enabled(s, run[0]) ==>
      && (run[0].Execute? ==> HasRemaining(s))
      && (run[0].Finish? && run[0].status.Temporary? ==> retries)
      && !run[0].Clear?
      && Polite(Apply(s, run[0]).0, run[1..], retries)
  }

  lemma {:induction false} PoliteAppend<I, O>(s: State<I, O>, run: seq<Event<I, O>>, e: Event<I, O>)
    requires Exec(s, run).Some? && Polite(s, run, true)
    requires (e.Execute? ==> HasRemaining(Exec(s, run).value)) && !e.Clear?
    ensures Polite(s, run + [e], true)
    decreases |run|
  {
    if run == [] {
      assert run + [e] == [e] && [e][1..] == [];
    } else {
      assert (run + [e])[1..] == run[1..] + [e];
      PoliteAppend(Apply(s, run[0]).0, run[1..], e);
    }
  }

  lemma {:induction false} PoliteFill<I, O>(concurrent: nat, prefetch: nat, n: nat, i: I)
    returns (run: seq<Event<I, O>>)
    requires concurrent > 1 && n <= concurrent
    ensures Exec(New<I, O>(concurrent, prefetch), run) == Some(Filled<I, O>(concurrent, prefetch, n, i))
    ensures Polite(New<I, O>(concurrent, prefetch), run, true)
  {
    var start := New<I, O>(concurrent, prefetch);
    if n == 0 {
      assert Filled<I, O>(concurrent, prefetch, 0, i) == start;
      run := [];
    } else {
      var before := PoliteFill<I, O>(concurrent, prefetch, n - 1, i);
      var s, e := Filled<I, O>(concurrent, prefetch, n - 1, i), Event<I, O>.Execute(i, Temporary);
      assert s.tasks + [Task(i, Running)] == seq(n, _ => Task(i, Running));
      assert seq(n, _ => i) == s.accepted + [i];
      assert Apply(s, e).0 == Filled<I, O>(concurrent, prefetch, n, i);
      run := before + [e];
      ExecAppend(start, before, e);
      PoliteAppend(start, before, e);
    }
  }

  /** One finished task makes room for another; then one more `execute` finds its slot by popping a finished task. */
  lemma LimitCanBeExceeded<I, O>(concurrent: nat, prefetch: nat, i: I, o: O) returns (run: seq<Event<I, O>>)
    requires concurrent > 1 && prefetch > 0
    ensures !LimitHolds(concurrent, prefetch, run)
  {
    var start := New<I, O>(concurrent, prefetch);
    run := PoliteFill<I, O>(concurrent, prefetch, concurrent, i);
    var s0 := Filled<I, O>(concurrent, prefetch, concurrent, i);
    var s1 := Apply(s0, Finish(0, Done(o))).0;
    ExecAppend(start, run, Finish(0, Done(o)));
    run := run + [Finish(0, Done(o))];
    var s2 := Apply(s1, Execute(i, Temporary)).0;
    ExecAppend(start, run, Execute(i, Temporary));
    run := run + [Execute(i, Temporary)];
    var s3 := Apply(s2, Execute(i, Temporary)).0;
    ExecAppend(start, run, Execute(i, Temporary));
    run := run + [Execute(i, Temporary)];
    var s4 := Apply(s3, Resume).0;
    ExecAppend(start, run, Resume);
    run := run + [Resume];
    assert forall k | 0 <= k < |s4.tasks| :: s4.tasks[k].status.Running?;
    NoneFinished(s4.tasks);
  }

  /**
    The documented maximum holds in every run exactly if nothing is prefetched or nothing runs concurrently.
    In general only the sum of the two limits is one.
    */
  lemma {:induction false} LimitHoldsIff<I(!new), O(!new)>(concurrent: nat, prefetch: nat, i: I, o: O)
    ensures (forall run: seq<Event<I, O>> :: LimitHolds(concurrent, prefetch, run)) <==>
            prefetch == 0 || concurrent <= 1
  {
    if prefetch == 0 || concurrent <= 1 {
      forall run: seq<Event<I, O>> ensures LimitHolds(concurrent, prefetch, run) {
        var start := New<I, O>(concurrent, prefetch);
        if Exec(start, run).Some? {
          RunKeepsOrder(start, run);
          RunKeepsLength(start, run);
          FinishedBound(Exec(start, run).value.tasks);
        }
      }
    } else {
      var run := LimitCanBeExceeded<I, O>(concurrent, prefetch, i, o);
      assert !LimitHolds(concurrent, prefetch, run);
    }
  }

  ghost predicate NoTemporary<I, O>(s: State<I, O>) {
    forall k | 0 <= k < |s.tasks| :: !s.tasks[k].status.Temporary?
  }

  lemma {:induction false} PoliteStep<I, O>(s: State<I, O>, e: Event<I, O>)
    requires CountInv(s) && Enabled(s, e) && !s.cleared && NoTemporary(s) && WithinLimit(s)
    requires (e.Execute? ==> HasRemaining(s)) && (e.Finish? ==> !e.status.Temporary?) && !e.Clear?
    requires s.waiting.Some? ==> s.waiting.value.ToNext?
    ensures var s' := Apply(s, e).0;
            !s'.cleared && NoTemporary(s') && WithinLimit(s') && (s'.waiting.Some? ==> s'.waiting.value.ToNext?)
  {
    match e
    case Finish(k, status) => FinishedUpdate(s.tasks, k, Task(s.tasks[k].input, status));
    case Execute(input, _) => FinishedAppend(s.tasks, Task(input, Running));
    case _ =>
  }

  /** With such callers the documented maximum does hold. */
  lemma {:induction false} PoliteCallersStayWithinLimit<I, O>(s: State<I, O>, run: seq<Event<I, O>>)
    requires CountInv(s) && !s.cleared && NoTemporary(s) && WithinLimit(s)
    requires Exec(s, run).Some? && Polite(s, run, false)
    requires s.waiting.Some? ==> s.waiting.value.ToNext?
    ensures WithinLimit(Exec(s, run).value)
    decreases |run|
  {
    if run != [] {
      PoliteStep(s, run[0]);
      StepKeepsCount(s, run[0]);
      PoliteCallersStayWithinLimit(Apply(s, run[0]).0, run[1..]);
    }
  }

  /** A finished task makes room for another; but it had failed for a while, and `next` starts it again. */
  lemma PoliteCallerCanExceed<I, O>(concurrent: nat, prefetch: nat, i: I) returns (run: seq<Event<I, O>>)
    requires concurrent > 1 && prefetch > 0
    ensures Polite(New<I, O>(concurrent, prefetch), run, true) && !LimitHolds(concurrent, prefetch, run)
  {
    var start := New<I, O>(concurrent, prefetch);
    run := PoliteFill<I, O>(concurrent, prefetch, concurrent, i);
    var s0 := Filled<I, O>(concurrent, prefetch, concurrent, i);
    var s1 := Apply(s0, Finish(0, Temporary)).0;
    run := Extended(start, run, Finish(0, Temporary));
    var s2 := Apply(s1, Execute(i, Temporary)).0;
    run := Extended(start, run, Execute(i, Temporary));
    var s3 := Apply(s2, Next).0;
    run := Extended(start, run, Next);
    var s4 := Apply(s3, Resume).0;
    run := Extended(start, run, Resume);
    assert forall k | 0 <= k < |s4.tasks| :: s4.tasks[k].status.Running?;
    NoneFinished(s4.tasks);
  }

  lemma Extended<I, O>(s: State<I, O>, run: seq<Event<I, O>>, e: Event<I, O>) returns (longer: seq<Event<I, O>>)
    requires Exec(s, run).Some? && Enabled(Exec(s, run).value, e) && Polite(s, run, true)
    requires (e.Execute? ==> HasRemaining(Exec(s, run).value)) && !e.Clear?
    ensures Exec(s, longer) == Some(Apply(Exec(s, run).value, e).0) && Polite(s, longer, true)
  {
    longer := run + [e];
    ExecAppend(s, run, e);
    PoliteAppend(s, run, e);
  }

  /** If tasks may fail for a while, such callers are safe for the same limits only as all others. */
  lemma {:induction false} PoliteLimitIff<I(!new), O(!new)>(concurrent: nat, prefetch: nat, i: I, o: O)
    ensures (forall run: seq<Event<I, O>> | Polite(New<I, O>(concurrent, prefetch), run, true) ::
               LimitHolds(concurrent, prefetch, run)) <==>
            prefetch == 0 || concurrent <= 1
  {
    LimitHoldsIff<I, O>(concurrent, prefetch, i, o);
    if prefetch > 0 && concurrent > 1 {
      var run := PoliteCallerCanExceed<I, O>(concurrent, prefetch, i);
      assert !LimitHolds(concurrent, prefetch, run);
    }
  }

  // ---------- The queue as an object ----------

  /** The scheduler decides which background tasks finish while a call runs, and how. */
  class Tasks<I, O> {
    var s: State<I, O>
    ghost var failures: nat    // how many calls have failed

    constructor (concurrent: nat, prefetch: nat)
      ensures Valid() && View() == Queue([], 0, false)
    {
      s, failures := New(concurrent, prefetch), 0;
    }

    ghost predicate Kept()
      reads this
    {
      OrderInv(s) && CountInv(s)
    }

    ghost predicate Valid()
      reads this
    {
      Kept() && s.waiting.None?
    }

    ghost function View(): Queue<I>
      reads this
    {
      ViewOf(s)
    }

    lemma DeliversNoMore()
      requires Valid()
      ensures View().delivered <= |View().accepted|
    {
      assert |OutputInputs(s.delivered)| == |s.delivered|;
    }

    method Take(e: Event<I, O>) returns (reply: Option<Reply<I, O>>)
      requires Kept() && Enabled(s, e) && !e.Clear?
      modifies this`s
      ensures Kept() && (s, reply) == Apply(old(s), e)
      ensures if reply.Some? then ReplyOk(old(View()), CallInput(old(s), e), reply.value, View())
              else View() == old(View())
    {
      StepKeepsOrder(s, e);
      StepKeepsCount(s, e);
      RepliesAreThoseOfAQueue(s, e);
      var (s', r) := Apply(s, e);
      s, reply := s', r;
    }

    /** Any number of background tasks finish. */
    method Background()
      requires Kept()
      modifies this`s
      ensures Kept() && View() == old(View()) && s.waiting == old(s.waiting)
    {
      var n: nat := *;
      while n > 0
        invariant Kept() && View() == old(View()) && s.waiting == old(s.waiting)
      {
        var k: nat, status: Status<O> := *, *;
        if Enabled(s, Finish(k, status)) {
          var _ := Take(Finish(k, status));
        } else if Enabled(s, Straggle) {
          var _ := Take(Straggle);
        }
        n := n - 1;
      }
    }

    method AwaitFirst()
      requires Kept() && s.tasks != []
      modifies this`s
      ensures Kept() && View() == old(View()) && s.waiting == old(s.waiting)
      ensures s.tasks != [] && !s.tasks[0].status.Running?
    {
      if s.tasks[0].status.Running? {
        var status: Status<O> := *;
        var _ := Take(Finish(0, if status.Running? then Temporary else status));
      }
    }

    /** The call waits for the first task; its future may be dropped before that, which counts as a failed call. */
    method Await() returns (reply: Reply<I, O>, ghost before: State<I, O>, ghost last: Event<I, O>)
      requires Kept() && s.waiting.Some?
      modifies this`s
      ensures Valid()
      ensures ReplyOk(old(View()), WaitingInput(old(s)), reply, View())
      ensures Ended(old(View()), WaitingInput(old(s)), before, last, reply, s)
    {
      Background();
      if * {
        before, last := s, Drop;
        var _ := Take(Drop);
        return Failed, before, last;
      }
      AwaitFirst();
      before, last := s, Resume;
      RepliesIff(s, Resume);
      var r := Take(Resume);
      reply := r.value;
    }

    method Call(e: Event<I, O>) returns (reply: Reply<I, O>, ghost before: State<I, O>, ghost last: Event<I, O>)
      requires Valid() && Enabled(s, e) && (e.Execute? || e.Next?)
      modifies this
      ensures Valid() && failures == old(failures) + if reply.Failed? then 1 else 0
      ensures ReplyOk(old(View()), CallInput(old(s), e), reply, View())
      ensures Ended(old(View()), CallInput(old(s), e), before, last, reply, s)
    {
      Background();
      before, last := s, e;
      RepliesIff(s, e);
      var r := Take(e);
      if r.Some? {
        reply := r.value;
      } else {
        reply, before, last := Await();
      }
      failures := failures + if reply.Failed? then 1 else 0;
    }

    /** `last` is the event that ended the call, and `before` the state that it met. */
    method Execute(input: I) returns (reply: Reply<I, O>, ghost before: State<I, O>, ghost last: Event<I, O>)
      requires Valid()
      modifies this
      ensures Valid() && failures == old(failures) + if reply.Failed? then 1 else 0
      ensures ReplyOk(old(View()), Some(input), reply, View())
      ensures Ended(old(View()), Some(input), before, last, reply, s)
      ensures reply.Failed? <==> FailsBy(before, last)
    {
      var direct: Status<O> := *;
      reply, before, last := Call(Event.Execute(input, if direct.Running? then Temporary else direct));
      FailsIff(old(View()), Some(input), before, last, reply, s);
    }

    method Next() returns (reply: Reply<I, O>, ghost before: State<I, O>, ghost last: Event<I, O>)
      requires Valid()
      modifies this
      ensures Valid() && failures == old(failures) + if reply.Failed? then 1 else 0
      ensures ReplyOk(old(View()), None, reply, View())
      ensures Ended(old(View()), None, before, last, reply, s)
      ensures reply.Failed? <==> FailsBy(before, last)
    {
      reply, before, last := Call(Event.Next);
      FailsIff(old(View()), None, before, last, reply, s);
    }

    /** What is not delivered yet is forgotten, and the queue goes on with nothing in it. */
    method Clear()
      requires Valid()
      modifies this`s
      ensures Valid() && View() == old(View()).(accepted := Forget(old(View()).accepted, old(View()).delivered))
    {
      StepKeepsOrder(s, Event.Clear);
      StepKeepsCount(s, Event.Clear);
      s := Apply(s, Event.Clear).0;
    }
  }
}
