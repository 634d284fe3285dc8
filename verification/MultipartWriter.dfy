/**
  The multipart writer of the core: every write becomes one part of an upload, parts are sent through
  `ConcurrentTasks`, and closing the writer collects them and completes the upload. The last write is held back in
  `cache`, so that a writer that saw at most one write can store its object with a single request.

  Every request may fail, a future may be dropped while it waits, and callers repeat failed calls as they like. A
  request that failed for its sender may have been carried out by the service all the same.
  */
module MultipartWriter {
  import opened Common
  import opened ConcurrentTasks

  type Bytes = seq<Byte>

  datatype Input = WriteInput(uploadId: nat, partNumber: nat, bytes: Bytes)

  /** A stored part, with the input it was made from; the tag stands for what the service says about it. */
  type Part = Output<Input, string>

  /** The requests, other than for single parts, that the service has carried out. */
  datatype Request =
    | Initiate(uploadId: nat)
    | WriteOnce(bytes: Bytes)
    | Complete(uploadId: nat, parts: seq<Part>)
    | AbortUpload(uploadId: nat)

  datatype WriterView = WriterView(
    uploadId: Option<nat>,
    parts: seq<Part>,
    cache: Option<Bytes>,
    nextPartNumber: nat,
    queue: Queue<Input>,
    aborted: bool,             // `abort` dropped an upload
    log: seq<Request>)

  const NEW := WriterView(None, [], None, 0, Queue([], 0, false), false, [])

  /** `Mismatch` is the part number check of `close`, `Panicked` the failing `expect` of `write`. */
  datatype Outcome = Ok | Err | Mismatch | Panicked

  datatype Call = Write(bytes: Bytes, outcome: Outcome) | Close(outcome: Outcome) | Abort(outcome: Outcome)

  // ---------- One call ----------

  /** The upload id is asked for once. */
  ghost predicate Started(v: WriterView, v': WriterView) {
    && v'.uploadId.Some?
    && (v.uploadId.Some? ==> v'.uploadId == v.uploadId && v'.log == v.log)
    && (v.uploadId.None? ==> v'.log == v.log + [Initiate(v'.uploadId.value)])
  }

  ghost predicate SameQueue(q: Queue<Input>, q': Queue<Input>) {
    q'.accepted == q.accepted && q'.delivered == q.delivered && (q.broken ==> q'.broken)
  }

  /** The part held back goes to the queue. */
  ghost function HandOver(v: WriterView, id: nat): WriterView {
    if v.cache.None? then v
    else v.(cache := None, nextPartNumber := v.nextPartNumber + 1,
            queue := v.queue.(accepted := v.queue.accepted + [WriteInput(id, v.nextPartNumber, v.cache.value)]))
  }

  /** The service carried the request out, or it did not. */
  predicate MayHave(log: seq<Request>, r: Request, log': seq<Request>) {
    log' == log || log' == log + [r]
  }

  predicate MayHaveInitiated(log: seq<Request>, log': seq<Request>) {
    log' == log || (log' != [] && log'[..|log'| - 1] == log && log'[|log'| - 1].Initiate?)
  }

  ghost predicate WriteStep(v: WriterView, bs: Bytes, outcome: Outcome, v': WriterView) {
    if v.uploadId.None? && v.cache.None? then outcome == Ok && v' == v.(cache := Some(bs))
    else if v.cache.None? then outcome == Panicked && v' == v
    else match outcome
      case Ok =>
        && Started(v, v')
        && v' == HandOver(v, v'.uploadId.value).(cache := Some(bs), uploadId := v'.uploadId, log := v'.log)
      case Err =>
        || (v.uploadId.None? && v' == v.(log := v'.log) && MayHaveInitiated(v.log, v'.log))
        || (Started(v, v') && SameQueue(v.queue, v'.queue)
            && v' == v.(uploadId := v'.uploadId, log := v'.log, queue := v'.queue))
      case _ => false
  }

  /** More parts are collected, in the order of the queue. */
  ghost predicate Collected(v: WriterView, v': WriterView) {
    var more := |v'.parts| - |v.parts|;
    && v'.queue.accepted == v.queue.accepted
    && v.parts <= v'.parts
    && v.queue.delivered + more == v'.queue.delivered <= |v.queue.accepted|
    && (forall k | |v.parts| <= k < |v'.parts| ::
          v'.parts[k].input == v.queue.accepted[v.queue.delivered + (k - |v.parts|)])
    && v' == v.(parts := v'.parts, queue := v'.queue, log := v'.log)
  }

  /** What one call of `next` does to the parts. */
  ghost predicate Fetched(v: WriterView, reply: Reply<Input, string>, v': WriterView) {
    match reply
    case Got(part) =>
      && v.queue.delivered < |v.queue.accepted| && part.input == v.queue.accepted[v.queue.delivered]
      && v' == v.(parts := v.parts + [part], queue := v.queue.(delivered := v.queue.delivered + 1))
    case Drained => v.queue.delivered == |v.queue.accepted| && v' == v
    case _ => SameQueue(v.queue, v'.queue) && v' == v.(queue := v'.queue)
  }

  lemma CollectOne(v: WriterView, v1: WriterView, reply: Reply<Input, string>, v2: WriterView)
    requires Collected(v, v1) && Fetched(v1, reply, v2)
    ensures Collected(v, v2)
  {
  }

  lemma CollectedWithAnyLog(v: WriterView, v1: WriterView, v2: WriterView)
    requires Collected(v, v1) && v2 == v1.(log := v2.log)
    ensures Collected(v, v2)
  {
  }

  ghost predicate CloseOnceStep(v: WriterView, outcome: Outcome, v': WriterView) {
    var r := WriteOnce(if v.cache.Some? then v.cache.value else []);
    match outcome
    case Ok => v' == v.(cache := None, log := v.log + [r])
    case Err => v' == v.(log := v'.log) && MayHave(v.log, r, v'.log)
    case _ => false
  }

  /** All parts are collected and the service was asked to put them together. */
  ghost predicate Asked(handed: WriterView, v': WriterView) {
    Collected(handed, v') && v'.queue.delivered == |v'.queue.accepted| && |v'.parts| == v'.nextPartNumber
  }

  ghost predicate CloseUploadStep(v: WriterView, id: nat, outcome: Outcome, v': WriterView) {
    var handed := HandOver(v, id);
    match outcome
    case Ok => Asked(handed, v') && v'.log == v.log + [Complete(id, v'.parts)]
    case Err =>
      || (v'.log == v.log && Collected(handed, v'))
      || (v'.log == v.log && SameQueue(v.queue, v'.queue) && v' == v.(queue := v'.queue))
      || (Asked(handed, v') && MayHave(v.log, Complete(id, v'.parts), v'.log))
    case Mismatch =>
      && Collected(handed, v') && v'.log == v.log
      && v'.queue.delivered == |v'.queue.accepted| && |v'.parts| != v'.nextPartNumber
    case Panicked => false
  }

  ghost predicate CloseStep(v: WriterView, outcome: Outcome, v': WriterView) {
    if v.uploadId.None? then CloseOnceStep(v, outcome, v')
    else CloseUploadStep(v, v.uploadId.value, outcome, v')
  }

  /** What is held back and what is not collected yet is gone before the request is sent. */
  ghost predicate AbortStep(v: WriterView, outcome: Outcome, v': WriterView) {
    if v.uploadId.None? then outcome == Ok && v' == v
    else
      var r := AbortUpload(v.uploadId.value);
      && v' == v.(cache := None, aborted := true, log := v'.log,
                  queue := v.queue.(accepted := Forget(v.queue.accepted, v.queue.delivered)))
      && (outcome == Ok || outcome == Err) && MayHave(v.log, r, v'.log) && (outcome == Ok ==> v'.log == v.log + [r])
  }

  ghost predicate Step(v: WriterView, c: Call, v': WriterView) {
    match c
    case Write(bs, outcome) => WriteStep(v, bs, outcome, v')
    case Close(outcome) => CloseStep(v, outcome, v')
    case Abort(outcome) => AbortStep(v, outcome, v')
  }

  // ---------- Every run ----------

  /**
    The writes among the first `n` calls that returned success and that the writer has not forgotten: a `close` that
    succeeds with a single request leaves a writer as good as new.
    */
  ghost function Content(states: seq<WriterView>, run: seq<Call>, n: nat): seq<Bytes>
    requires n <= |run| < |states|
  {
    if n == 0 then [] else ContentAfter(Content(states, run, n - 1), states[n - 1], run[n - 1])
  }

  ghost function ContentAfter(content: seq<Bytes>, v: WriterView, c: Call): seq<Bytes> {
    if c.Write? && c.outcome == Ok then content + [c.bytes]
    else if c == Close(Ok) && v.uploadId.None? then []
    else content
  }

  ghost predicate IsRun(states: seq<WriterView>, run: seq<Call>) {
    |states| == |run| + 1 && states[0] == NEW && forall i | 0 <= i < |run| :: StepAt(states, run, i)
  }

  ghost predicate StepAt(states: seq<WriterView>, run: seq<Call>, i: nat)
    requires i < |run| < |states|
  {
    Step(states[i], run[i], states[i + 1])
  }

  /** The part made of the `k`-th write has number `k`. */
  ghost predicate Numbered(inputs: seq<Input>, id: nat, content: seq<Bytes>) {
    |inputs| <= |content| && forall k | 0 <= k < |inputs| :: inputs[k] == WriteInput(id, k, content[k])
  }

  /** Where the accepted writes are. */
  ghost predicate Inv(v: WriterView, content: seq<Bytes>) {
    match v.uploadId
    case None =>
      && v == NEW.(cache := v.cache, queue := v.queue, log := v.log) && v.queue == NEW.queue
      && content == if v.cache.Some? then [v.cache.value] else []
    case Some(id) =>
      && |v.parts| == v.queue.delivered <= |v.queue.accepted| <= v.nextPartNumber
      && Numbered(v.queue.accepted, id, content)
      && (forall k | 0 <= k < |v.parts| :: v.parts[k].input == v.queue.accepted[k])
      && (if v.aborted then v.cache.None? && v.queue.delivered == |v.queue.accepted|
          else |v.queue.accepted| == v.nextPartNumber && HoldsLast(v, content))
  }

  ghost predicate HoldsLast(v: WriterView, content: seq<Bytes>) {
    && |content| == v.nextPartNumber + (if v.cache.Some? then 1 else 0)
    && (v.cache.Some? ==> content[v.nextPartNumber] == v.cache.value)
  }

  lemma HandOverKeepsInv(v: WriterView, content: seq<Bytes>)
    requires Inv(v, content) && v.uploadId.Some?
    ensures Inv(HandOver(v, v.uploadId.value), content)
  {
  }

  lemma CollectingKeepsInv(v: WriterView, v': WriterView, content: seq<Bytes>)
    requires Inv(v, content) && v.uploadId.Some? && Collected(v, v')
    ensures Inv(v', content)
  {
    forall k | 0 <= k < |v'.parts| ensures v'.parts[k].input == v.queue.accepted[k] {
      if k < |v.parts| {
        assert v'.parts[k] == v.parts[k];
      }
    }
  }

  lemma WriteKeepsInv(v: WriterView, bs: Bytes, outcome: Outcome, v': WriterView, content: seq<Bytes>)
    requires Inv(v, content) && WriteStep(v, bs, outcome, v')
    ensures Inv(v', ContentAfter(content, v, Write(bs, outcome)))
  {
  }

  /** Without an abort, `close` never finds a wrong number of parts. */
  lemma CloseKeepsInv(v: WriterView, outcome: Outcome, v': WriterView, content: seq<Bytes>)
    requires Inv(v, content) && CloseStep(v, outcome, v')
    ensures Inv(v', ContentAfter(content, v, Close(outcome))) && (outcome == Mismatch ==> v.aborted)
    ensures v'.aborted == v.aborted
  {
    if v.uploadId.Some? {
      var handed := HandOver(v, v.uploadId.value);
      HandOverKeepsInv(v, content);
      if Collected(handed, v') {
        CollectingKeepsInv(handed, v', content);
      }
    }
  }

  lemma AbortKeepsInv(v: WriterView, outcome: Outcome, v': WriterView, content: seq<Bytes>)
    requires Inv(v, content) && AbortStep(v, outcome, v')
    ensures Inv(v', content)
  {
  }

  lemma StepKeepsInv(v: WriterView, c: Call, v': WriterView, content: seq<Bytes>)
    requires Inv(v, content) && Step(v, c, v')
    ensures Inv(v', ContentAfter(content, v, c))
  {
    match c
    case Write(bs, outcome) => WriteKeepsInv(v, bs, outcome, v', content);
    case Close(outcome) => CloseKeepsInv(v, outcome, v', content);
    case Abort(outcome) => AbortKeepsInv(v, outcome, v', content);
  }

  lemma {:induction false} RunKeepsInv(states: seq<WriterView>, run: seq<Call>, n: nat)
    requires IsRun(states, run) && n <= |run|
    ensures Inv(states[n], Content(states, run, n))
  {
    if n > 0 {
      RunKeepsInv(states, run, n - 1);
      assert StepAt(states, run, n - 1);
      StepKeepsInv(states[n - 1], run[n - 1], states[n], Content(states, run, n - 1));
    }
  }

  // ---------- The objects that the service makes ----------

  predicate MakesObject(r: Request) {
    r.WriteOnce? || r.Complete?
  }

  /** A request stores an object made of the given writes, each of them a part with its own number. */
  ghost predicate StoresExactly(r: Request, content: seq<Bytes>) {
    match r
    case WriteOnce(bytes) => |content| <= 1 && bytes == Flatten(content)
    case Complete(id, parts) =>
      |parts| == |content| && forall k | 0 <= k < |parts| :: parts[k].input == WriteInput(id, k, content[k])
    case _ => false
  }

  ghost function PartBytes(parts: seq<Part>): (pieces: seq<Bytes>)
    ensures |pieces| == |parts| && forall k | 0 <= k < |parts| :: pieces[k] == parts[k].input.bytes
  {
    if parts == [] then [] else [parts[0].input.bytes] + PartBytes(parts[1..])
  }

  /** The bytes of the object that a request makes. */
  ghost function Object(r: Request): Bytes {
    match r
    case WriteOnce(bytes) => bytes
    case Complete(_, parts) => Flatten(PartBytes(parts))
    case _ => []
  }

  lemma ObjectIsContent(r: Request, content: seq<Bytes>)
    requires StoresExactly(r, content)
    ensures Object(r) == Flatten(content)
  {
    if r.Complete? {
      assert PartBytes(r.parts) == content;
    }
  }

  /** The call made the service store an object, whatever it told its caller. */
  predicate Stored(v: WriterView, c: Call, v': WriterView) {
    c.Close? && v'.log != v.log
  }

  lemma CloseStoresContent(v: WriterView, outcome: Outcome, v': WriterView, content: seq<Bytes>)
    requires Inv(v, content) && CloseStep(v, outcome, v') && v'.log != v.log
    ensures |v'.log| == |v.log| + 1 && v'.log == v.log + [v'.log[|v.log|]] && MakesObject(v'.log[|v.log|])
    ensures Within(v, content) && StoresExactly(v'.log[|v.log|], Held(v, content))
  {
    if v.uploadId.None? {
      if v.cache.Some? {
        FlattenOne(v.cache.value);
      }
    } else {
      HandOverKeepsInv(v, content);
      CollectingKeepsInv(HandOver(v, v.uploadId.value), v', content);
    }
  }

  // ---------- Whose upload ----------

  /** The upload that the request ends. */
  function EndedUpload(r: Request): Option<nat> {
    match r
    case Complete(id, _) => Some(id)
    case AbortUpload(id) => Some(id)
    case _ => None
  }

  ghost predicate OwnInv(v: WriterView) {
    && (v.uploadId.Some? ==> Initiate(v.uploadId.value) in v.log)
    && forall k | 0 <= k < |v.log| && EndedUpload(v.log[k]).Some? ::
         EndedUpload(v.log[k]) == v.uploadId && Initiate(v.uploadId.value) in v.log[..k]
  }

  lemma LogKeepsOwn(v: WriterView, v': WriterView, r: Request)
    requires OwnInv(v) && v'.log == v.log + [r] && v'.uploadId == v.uploadId
    requires EndedUpload(r).Some? ==> v.uploadId == EndedUpload(r)
    ensures OwnInv(v')
  {
    forall k | 0 <= k < |v'.log| && EndedUpload(v'.log[k]).Some?
      ensures EndedUpload(v'.log[k]) == v.uploadId && Initiate(v.uploadId.value) in v'.log[..k]
    {
      if k < |v.log| {
        assert v'.log[..k] == v.log[..k];
      } else {
        assert v'.log[..k] == v.log;
      }
    }
  }

  lemma WriteKeepsOwn(v: WriterView, bs: Bytes, outcome: Outcome, v': WriterView)
    requires OwnInv(v) && WriteStep(v, bs, outcome, v')
    ensures OwnInv(v')
  {
    if v'.log != v.log {
      assert v'.log == v.log + [v'.log[|v.log|]];
      LogKeepsOwn(v, v'.(uploadId := None), v'.log[|v.log|]);
    }
  }

  lemma CloseKeepsOwn(v: WriterView, outcome: Outcome, v': WriterView)
    requires OwnInv(v) && CloseStep(v, outcome, v')
    ensures OwnInv(v')
  {
    if v'.log != v.log {
      LogKeepsOwn(v, v', if v.uploadId.None? then WriteOnce(if v.cache.Some? then v.cache.value else [])
                         else Complete(v.uploadId.value, v'.parts));
    }
  }

  lemma AbortKeepsOwn(v: WriterView, outcome: Outcome, v': WriterView)
    requires OwnInv(v) && AbortStep(v, outcome, v')
    ensures OwnInv(v')
  {
    if v'.log != v.log {
      LogKeepsOwn(v, v', AbortUpload(v.uploadId.value));
    }
  }

  lemma StepKeepsOwn(v: WriterView, c: Call, v': WriterView)
    requires OwnInv(v) && Step(v, c, v')
    ensures OwnInv(v')
  {
    match c
    case Write(bs, outcome) => WriteKeepsOwn(v, bs, outcome, v');
    case Close(outcome) => CloseKeepsOwn(v, outcome, v');
    case Abort(outcome) => AbortKeepsOwn(v, outcome, v');
  }

  lemma {:induction false} RunKeepsOwn(states: seq<WriterView>, run: seq<Call>, n: nat)
    requires IsRun(states, run) && n <= |run|
    ensures OwnInv(states[n])
  {
    if n > 0 {
      RunKeepsOwn(states, run, n - 1);
      assert StepAt(states, run, n - 1);
      StepKeepsOwn(states[n - 1], run[n - 1], states[n]);
    }
  }

  /**
    Every upload that was completed or aborted is the writer's own, and the service had started it before; a writer has
    one upload at most.
    */
  lemma {:induction false} OwnUploadOnly(states: seq<WriterView>, run: seq<Call>, n: nat, k: nat)
    requires IsRun(states, run) && n <= |run| && k < |states[n].log|
    ensures match states[n].log[k]
            case Complete(id, _) => states[n].uploadId == Some(id) && Initiate(id) in states[n].log[..k]
            case AbortUpload(id) => states[n].uploadId == Some(id) && Initiate(id) in states[n].log[..k]
            case _ => true
  {
    RunKeepsOwn(states, run, n);
    assert EndedUpload(states[n].log[k]).Some? ==> EndedUpload(states[n].log[k]) == states[n].uploadId;
  }

  // ---------- What a close stores, and what was written ----------

  /** Every write among the first `n` calls that returned success. */
  function Written(run: seq<Call>, n: nat): seq<Bytes>
    requires n <= |run|
  {
    if n == 0 then [] else Written(run, n - 1) + TakenBy(run[n - 1])
  }

  /** After an `abort` only what had been handed over before counts. */
  ghost predicate Within(v: WriterView, content: seq<Bytes>) {
    v.aborted ==> v.nextPartNumber <= |content|
  }

  ghost function Held(v: WriterView, content: seq<Bytes>): seq<Bytes>
    requires Within(v, content)
  {
    if v.aborted then content[..v.nextPartNumber] else content
  }

  /** A `close` that succeeds with a single request forgets the write it has stored. */
  ghost predicate Restarts(v: WriterView, c: Call) {
    c == Close(Ok) && v.uploadId.None? && v.cache.Some?
  }

  /** An `abort` of a started upload drops the write that is held back. */
  ghost predicate DropsHeld(v: WriterView, c: Call) {
    c.Abort? && v.uploadId.Some? && v.cache.Some?
  }

  /** The write that later objects lack because of the call. */
  ghost function LeftBehind(v: WriterView, c: Call): seq<Bytes> {
    if Restarts(v, c) || DropsHeld(v, c) then [v.cache.value] else []
  }

  ghost function BytesLeft(v: WriterView, c: Call): nat {
    if Restarts(v, c) || DropsHeld(v, c) then |v.cache.value| else 0
  }

  lemma BytesLeftCounts(v: WriterView, c: Call)
    ensures BytesLeft(v, c) == |Flatten(LeftBehind(v, c))|
  {
    if Restarts(v, c) || DropsHeld(v, c) {
      FlattenOne(v.cache.value);
    }
  }

  ghost function LeftBehindBy(states: seq<WriterView>, run: seq<Call>, n: nat): nat
    requires n <= |run| < |states|
  {
    if n == 0 then 0 else LeftBehindBy(states, run, n - 1) + BytesLeft(states[n - 1], run[n - 1])
  }

  function TakenBy(c: Call): seq<Bytes> {
    if c.Write? && c.outcome == Ok then [c.bytes] else []
  }

  lemma WriteAccounts(v: WriterView, bs: Bytes, outcome: Outcome, v': WriterView, content: seq<Bytes>)
    requires Inv(v, content) && WriteStep(v, bs, outcome, v') && Within(v, content)
    ensures Within(v', ContentAfter(content, v, Write(bs, outcome)))
    ensures Held(v, content) + TakenBy(Write(bs, outcome)) == Held(v', ContentAfter(content, v, Write(bs, outcome)))
  {
  }

  lemma CloseAccounts(v: WriterView, outcome: Outcome, v': WriterView, content: seq<Bytes>)
    requires Inv(v, content) && CloseStep(v, outcome, v') && Within(v, content)
    ensures Within(v', ContentAfter(content, v, Close(outcome)))
    ensures Held(v, content) == Held(v', ContentAfter(content, v, Close(outcome))) + LeftBehind(v, Close(outcome))
  {
    CloseKeepsInv(v, outcome, v', content);
  }

  lemma AbortAccounts(v: WriterView, outcome: Outcome, v': WriterView, content: seq<Bytes>)
    requires Inv(v, content) && AbortStep(v, outcome, v') && Within(v, content)
    ensures Within(v', content) && Held(v, content) == Held(v', content) + LeftBehind(v, Abort(outcome))
  {
  }

  /** After the call, the writes held and the write left behind are those held before and the one that was taken. */
  lemma StepAccounts(v: WriterView, c: Call, v': WriterView, content: seq<Bytes>)
    requires Inv(v, content) && Step(v, c, v') && Within(v, content)
    ensures Within(v', ContentAfter(content, v, c))
    ensures Held(v, content) + TakenBy(c) == Held(v', ContentAfter(content, v, c)) + LeftBehind(v, c)
  {
    match c
    case Write(bs, outcome) => WriteAccounts(v, bs, outcome, v', content);
    case Close(outcome) => CloseAccounts(v, outcome, v', content);
    case Abort(outcome) => AbortAccounts(v, outcome, v', content);
  }

  /** `lost` bytes of what was written are missing from what is held. */
  ghost predicate Lacks(held: seq<Bytes>, written: seq<Bytes>, lost: nat) {
    |Flatten(held)| + lost == |Flatten(written)| && (lost == 0 ==> Flatten(held) == Flatten(written))
  }

  lemma LacksMore(held: seq<Bytes>, taken: seq<Bytes>, held': seq<Bytes>, left: seq<Bytes>,
                  written: seq<Bytes>, lost: nat)
    requires Lacks(held, written, lost) && held + taken == held' + left
    ensures Lacks(held', written + taken, lost + |Flatten(left)|)
  {
    FlattenConcat(held, taken);
    FlattenConcat(held', left);
    FlattenConcat(written, taken);
    if |Flatten(left)| == 0 {
      assert Flatten(held') + [] == Flatten(held');
    }
  }

  /** No byte that was written is lost sight of. */
  lemma {:induction false} BytesAccounted(states: seq<WriterView>, run: seq<Call>, n: nat)
    requires IsRun(states, run) && n <= |run|
    ensures Within(states[n], Content(states, run, n))
    ensures Lacks(Held(states[n], Content(states, run, n)), Written(run, n), LeftBehindBy(states, run, n))
  {
    if n > 0 {
      var v, c, content := states[n - 1], run[n - 1], Content(states, run, n - 1);
      BytesAccounted(states, run, n - 1);
      RunKeepsInv(states, run, n - 1);
      assert StepAt(states, run, n - 1);
      StepAccounts(v, c, states[n], content);
      BytesLeftCounts(v, c);
      LacksMore(Held(v, content), TakenBy(c), Held(states[n], Content(states, run, n)), LeftBehind(v, c),
                Written(run, n - 1), LeftBehindBy(states, run, n - 1));
    }
  }

  lemma {:induction false} NothingLeftBehindIff(states: seq<WriterView>, run: seq<Call>, n: nat)
    requires n <= |run| < |states|
    ensures LeftBehindBy(states, run, n) == 0 <==>
            forall j | 0 <= j < n :: BytesLeft(states[j], run[j]) == 0
  {
    if n > 0 {
      NothingLeftBehindIff(states, run, n - 1);
      assert LeftBehindBy(states, run, n) == LeftBehindBy(states, run, n - 1) + BytesLeft(states[n - 1], run[n - 1]);
    }
  }

  /** The request that the `i`-th call made the service carry out. */
  ghost function StoredRequest(states: seq<WriterView>, i: nat): Request
    requires i + 1 < |states| && |states[i].log| < |states[i + 1].log|
  {
    states[i + 1].log[|states[i].log|]
  }

  /** A `close` that succeeds stores an object; each `close` stores at most one, and no earlier request is touched. */
  lemma {:induction false} CloseStoresOne(states: seq<WriterView>, run: seq<Call>, i: nat)
    requires IsRun(states, run) && i < |run| && run[i].Close?
    ensures run[i].outcome == Ok ==> Stored(states[i], run[i], states[i + 1])
    ensures Stored(states[i], run[i], states[i + 1]) ==>
              && |states[i + 1].log| == |states[i].log| + 1
              && states[i + 1].log == states[i].log + [StoredRequest(states, i)]
              && MakesObject(StoredRequest(states, i))
  {
    RunKeepsInv(states, run, i);
    assert StepAt(states, run, i);
    if states[i + 1].log != states[i].log {
      CloseStoresContent(states[i], run[i].outcome, states[i + 1], Content(states, run, i));
    }
  }

  /**
    However many calls failed, were dropped and repeated, whatever was closed or aborted before, and also if the call
    fails for its caller: an object that a `close` makes the service store consists of all bytes of all writes that had
    succeeded, in their order, if and only if no earlier call left bytes behind. A `close` with a single request leaves
    the write behind that it stored, and an `abort` of an upload the write that was held back; writes without bytes
    make no difference.
    */
  lemma {:induction false} StoredObjectIsRightIff(states: seq<WriterView>, run: seq<Call>, i: nat)
    requires IsRun(states, run) && i < |run| && Stored(states[i], run[i], states[i + 1])
    ensures |states[i + 1].log| == |states[i].log| + 1
    ensures Object(StoredRequest(states, i)) == Flatten(Written(run, i)) <==>
            forall j | 0 <= j < i :: BytesLeft(states[j], run[j]) == 0
    ensures |Object(StoredRequest(states, i))| + LeftBehindBy(states, run, i) == |Flatten(Written(run, i))|
  {
    var content := Content(states, run, i);
    RunKeepsInv(states, run, i);
    assert StepAt(states, run, i);
    CloseStoresContent(states[i], run[i].outcome, states[i + 1], content);
    ObjectIsContent(StoredRequest(states, i), Held(states[i], content));
    BytesAccounted(states, run, i);
    NothingLeftBehindIff(states, run, i);
  }

  lemma {:induction false} HeldDropped(states: seq<WriterView>, run: seq<Call>, n: nat)
    requires IsRun(states, run) && n <= |run|
    ensures !states[n].aborted ==> forall j | 0 <= j < n :: !DropsHeld(states[j], run[j])
    ensures states[n].aborted ==>
              (|Content(states, run, n)| == states[n].nextPartNumber <==>
               forall j | 0 <= j < n :: !DropsHeld(states[j], run[j]))
  {
    if n > 0 {
      HeldDropped(states, run, n - 1);
      RunKeepsInv(states, run, n - 1);
      assert StepAt(states, run, n - 1);
    }
  }

  /**
    The same for the writes themselves: the `k`-th part of the object is the `k`-th write that the writer has not
    forgotten, with number `k`, if and only if no `abort` dropped a write that was held back.
    */
  lemma {:induction false} StoredPartsAreTheWritesIff(states: seq<WriterView>, run: seq<Call>, i: nat)
    requires IsRun(states, run) && i < |run| && Stored(states[i], run[i], states[i + 1])
    ensures |states[i + 1].log| == |states[i].log| + 1
    ensures StoresExactly(StoredRequest(states, i), Content(states, run, i)) <==>
            forall j | 0 <= j < i :: !DropsHeld(states[j], run[j])
  {
    RunKeepsInv(states, run, i);
    assert StepAt(states, run, i);
    CloseStoresContent(states[i], run[i].outcome, states[i + 1], Content(states, run, i));
    HeldDropped(states, run, i);
  }

  lemma {:induction false} HeldWhenOnce(states: seq<WriterView>, run: seq<Call>, n: nat)
    requires IsRun(states, run) && n <= |run|
    ensures states[n].uploadId.None? ==> (states[n].cache.Some? <==> Content(states, run, n) != [])
  {
    RunKeepsInv(states, run, n);
  }

  lemma {:induction false} ForgetsIff(content: seq<Bytes>, written: seq<Bytes>, v: WriterView, c: Call)
    requires v.uploadId.None? ==> (v.cache.Some? <==> content != [])
    requires |content| <= |written| && (|content| == |written| ==> content == written)
    ensures var content' := ContentAfter(content, v, c);
            var written' := written + TakenBy(c);
            && |content'| <= |written'| && (|content'| == |written'| ==> content' == written')
            && (content' == written' <==> content == written && !Restarts(v, c))
  {
  }

  /** And it has forgotten none if and only if no earlier `close` succeeded with a single request. */
  lemma {:induction false} NothingForgottenIff(states: seq<WriterView>, run: seq<Call>, n: nat)
    requires IsRun(states, run) && n <= |run|
    ensures |Content(states, run, n)| <= |Written(run, n)|
    ensures |Content(states, run, n)| == |Written(run, n)| ==> Content(states, run, n) == Written(run, n)
    ensures Content(states, run, n) == Written(run, n) <==> forall j | 0 <= j < n :: !Restarts(states[j], run[j])
  {
    if n > 0 {
      NothingForgottenIff(states, run, n - 1);
      HeldWhenOnce(states, run, n - 1);
      ForgetsIff(Content(states, run, n - 1), Written(run, n - 1), states[n - 1], run[n - 1]);
    }
  }

  /** A second `close` replaces the object by an empty one: the first has cleared the cache. */
  lemma {:induction false} RepeatedCloseStoresNothing(a: Bytes) returns (states: seq<WriterView>, run: seq<Call>)
    ensures IsRun(states, run) && run == [Write(a, Ok), Close(Ok), Close(Ok)]
    ensures states[3].log == [WriteOnce(a), WriteOnce([])]
  {
    var s1 := NEW.(cache := Some(a));
    var s2 := NEW.(log := [WriteOnce(a)]);
    var s3 := NEW.(log := [WriteOnce(a), WriteOnce([])]);
    states, run := [NEW, s1, s2, s3], [Write(a, Ok), Close(Ok), Close(Ok)];
    assert s2.log == s1.log + [WriteOnce(a)] && s3.log == s2.log + [WriteOnce([])];
  }

  // ---------- How many objects ----------

  function ObjectsIn(log: seq<Request>): nat {
    if log == [] then 0 else ObjectsIn(log[..|log| - 1]) + if MakesObject(log[|log| - 1]) then 1 else 0
  }

  /** How many of the first `n` calls made the service store an object. */
  function Stores(states: seq<WriterView>, run: seq<Call>, n: nat): nat
    requires n <= |run| < |states|
  {
    if n == 0 then 0
    else Stores(states, run, n - 1) + if Stored(states[n - 1], run[n - 1], states[n]) then 1 else 0
  }

  lemma StepCountsObjects(v: WriterView, c: Call, v': WriterView, content: seq<Bytes>)
    requires Inv(v, content) && Step(v, c, v')
    ensures ObjectsIn(v'.log) == ObjectsIn(v.log) + if Stored(v, c, v') then 1 else 0
  {
    if v'.log != v.log {
      if c.Close? {
        CloseStoresContent(v, c.outcome, v', content);
      }
      assert v'.log[..|v.log|] == v.log;
    }
  }

  /** No other calls make objects: the log holds one for each call that stored one. */
  lemma {:induction false} ObjectsCounted(states: seq<WriterView>, run: seq<Call>, n: nat)
    requires IsRun(states, run) && n <= |run|
    ensures ObjectsIn(states[n].log) == Stores(states, run, n)
  {
    if n > 0 {
      ObjectsCounted(states, run, n - 1);
      RunKeepsInv(states, run, n - 1);
      assert StepAt(states, run, n - 1);
      StepCountsObjects(states[n - 1], run[n - 1], states[n], Content(states, run, n - 1));
    }
  }

  lemma {:induction false} NoStoresIff(states: seq<WriterView>, run: seq<Call>, n: nat)
    requires n <= |run| < |states|
    ensures Stores(states, run, n) == 0 <==> forall i | 0 <= i < n :: !Stored(states[i], run[i], states[i + 1])
  {
    if n > 0 {
      NoStoresIff(states, run, n - 1);
    }
  }

  /**
    When `close` succeeds there is exactly one object if and only if no earlier `close` had stored one, be it that it
    succeeded or that its request was carried out and reported as failed.
    */
  lemma {:induction false} ExactlyOneObjectIff(states: seq<WriterView>, run: seq<Call>, n: nat)
    requires IsRun(states, run) && n < |run| && run[n] == Close(Ok)
    ensures ObjectsIn(states[n + 1].log) == 1 <==>
            forall i | 0 <= i < n :: !Stored(states[i], run[i], states[i + 1])
  {
    assert StepAt(states, run, n);
    ObjectsCounted(states, run, n + 1);
    NoStoresIff(states, run, n);
  }

  /** All parts of an upload are collected and its completion is carried out. */
  function CompletedFrom(v: WriterView, id: nat): WriterView
    requires v.queue.delivered <= |v.queue.accepted|
  {
    var parts := v.parts + OutputsOf(v.queue.accepted[v.queue.delivered..]);
    v.(parts := parts, queue := v.queue.(delivered := |v.queue.accepted|), log := v.log + [Complete(id, parts)])
  }

  function OutputsOf(inputs: seq<Input>): (parts: seq<Part>)
    ensures |parts| == |inputs| && forall k | 0 <= k < |parts| :: parts[k].input == inputs[k]
  {
    if inputs == [] then [] else [Output(inputs[0], "")] + OutputsOf(inputs[1..])
  }

  /** A `close` that fails can always have stored its object, and the next one can succeed. */
  lemma FailedCloseMayHaveStored(v: WriterView, content: seq<Bytes>) returns (v1: WriterView, v2: WriterView)
    requires Inv(v, content) && !v.aborted
    ensures Step(v, Close(Err), v1) && Stored(v, Close(Err), v1) && Step(v1, Close(Ok), v2)
  {
    if v.uploadId.None? {
      var r := WriteOnce(if v.cache.Some? then v.cache.value else []);
      v1 := v.(log := v.log + [r]);
      v2 := v1.(cache := None, log := v1.log + [r]);
    } else {
      var id := v.uploadId.value;
      HandOverKeepsInv(v, content);
      v1 := CompletedFrom(HandOver(v, id), id);
      v2 := v1.(log := v1.log + [Complete(id, v1.parts)]);
      assert Asked(HandOver(v, id), v1) && Asked(v1, v2);
    }
  }

  /** For the same calls and outcomes there is a run in which the failed `close` has stored an object. */
  lemma {:induction false} SameCallsStoreMore(states: seq<WriterView>, run: seq<Call>)
    returns (states': seq<WriterView>)
    requires IsRun(states, run) && |run| >= 2 && !states[|run| - 2].aborted
    requires run[|run| - 2] == Close(Err) && run[|run| - 1] == Close(Ok)
    ensures IsRun(states', run) && Stored(states'[|run| - 2], run[|run| - 2], states'[|run| - 1])
  {
    var n := |run| - 2;
    RunKeepsInv(states, run, n);
    var v1, v2 := FailedCloseMayHaveStored(states[n], Content(states, run, n));
    states' := states[..n + 1] + [v1, v2];
    forall i | 0 <= i < |run| ensures StepAt(states', run, i) {
      if i < n {
        assert StepAt(states, run, i);
      }
    }
  }

  /** Writes, then calls of `close`, the last of which succeeds. */
  ghost predicate WritesThenCloses(run: seq<Call>, m: nat) {
    && m < |run| && run[|run| - 1] == Close(Ok)
    && (forall i | 0 <= i < m :: run[i].Write?)
    && (forall i | m <= i < |run| :: run[i] == Close(Ok) || run[i] == Close(Err))
  }

  lemma {:induction false} NotAborted(states: seq<WriterView>, run: seq<Call>, n: nat)
    requires IsRun(states, run) && n <= |run| && forall i | 0 <= i < n :: !run[i].Abort?
    ensures !states[n].aborted
  {
    if n > 0 {
      NotAborted(states, run, n - 1);
      RunKeepsInv(states, run, n - 1);
      assert StepAt(states, run, n - 1);
      if run[n - 1].Close? {
        CloseKeepsInv(states[n - 1], run[n - 1].outcome, states[n], Content(states, run, n - 1));
      }
    }
  }

  /** The calls, with their outcomes, leave no doubt that there is one object. */
  ghost predicate SurelyOneObject(run: seq<Call>) {
    forall states: seq<WriterView> | IsRun(states, run) :: ObjectsIn(states[|run|].log) == 1
  }

  /**
    What the caller can know: after some writes and then calls of `close` up to one that succeeds, there is surely one
    object if and only if the first `close` was that one. Any earlier one, failed or not, may have stored an object.
    */
  lemma {:induction false} SurelyOneObjectIff(states: seq<WriterView>, run: seq<Call>, m: nat)
    requires IsRun(states, run) && WritesThenCloses(run, m)
    ensures SurelyOneObject(run) <==> m == |run| - 1
  {
    var n := |run| - 1;
    if m == n {
      forall states': seq<WriterView> | IsRun(states', run) ensures ObjectsIn(states'[|run|].log) == 1 {
        ExactlyOneObjectIff(states', run, n);
      }
    } else {
      NotAborted(states, run, n - 1);
      if run[n - 1] == Close(Ok) {
        CloseStoresOne(states, run, n - 1);
        ExactlyOneObjectIff(states, run, n);
      } else {
        var states' := SameCallsStoreMore(states, run);
        assert Stored(states'[n - 1], run[n - 1], states'[n - 1 + 1]);
        ExactlyOneObjectIff(states', run, n);
      }
    }
  }

  /** A `close` whose only request is carried out and reported as failed, and its repetition. */
  lemma {:induction false} TwoObjectsCanBeMade(a: Bytes) returns (states: seq<WriterView>, run: seq<Call>)
    ensures IsRun(states, run) && run == [Write(a, Ok), Close(Err), Close(Ok)]
    ensures ObjectsIn(states[3].log) == 2
  {
    var s1 := NEW.(cache := Some(a));
    var s2 := s1.(log := [WriteOnce(a)]);
    var s3 := s2.(cache := None, log := [WriteOnce(a), WriteOnce(a)]);
    states, run := [NEW, s1, s2, s3], [Write(a, Ok), Close(Err), Close(Ok)];
    assert s2.log == s1.log + [WriteOnce(a)];
    assert s3.log == s2.log + [WriteOnce(a)];
    assert s3.log[..1] == [WriteOnce(a)] && [WriteOnce(a)][..0] == [];
    assert ObjectsIn([WriteOnce(a)]) == 1;
  }

  // ---------- After the end of an upload ----------

  /** An upload was started and nothing is held back. */
  ghost predicate Spent(v: WriterView) {
    v.uploadId.Some? && v.cache.None?
  }

  /** The call aborted a started upload, or it closed one and handed its last part over, however it ended. */
  ghost predicate Spends(v: WriterView, c: Call, v': WriterView) {
    v.uploadId.Some? && (c.Abort? || (c.Close? && v'.cache.None?))
  }

  lemma {:induction false} SpentStays(states: seq<WriterView>, run: seq<Call>, j: nat, i: nat)
    requires IsRun(states, run) && j <= i <= |run| && Spent(states[j])
    ensures Spent(states[i])
    decreases i - j
  {
    if j < i {
      assert StepAt(states, run, j);
      SpentStays(states, run, j + 1, i);
    }
  }

  lemma {:induction false} SpentByCall(states: seq<WriterView>, run: seq<Call>, i: nat) returns (j: nat)
    requires IsRun(states, run) && i <= |run| && Spent(states[i])
    ensures j < i && Spends(states[j], run[j], states[j + 1])
  {
    assert StepAt(states, run, i - 1);
    if Spent(states[i - 1]) {
      j := SpentByCall(states, run, i - 1);
    } else {
      j := i - 1;
    }
  }

  /**
    A write panics exactly if an earlier call aborted the upload or closed it: a successful `close`, or one that failed
    after it had handed the last part over.
    */
  lemma {:induction false} WritePanicsIff(states: seq<WriterView>, run: seq<Call>, i: nat)
    requires IsRun(states, run) && i < |run| && run[i].Write?
    ensures run[i].outcome == Panicked <==> exists j | 0 <= j < i :: Spends(states[j], run[j], states[j + 1])
  {
    assert StepAt(states, run, i);
    if Spent(states[i]) {
      var j := SpentByCall(states, run, i);
    } else if j :| 0 <= j < i && Spends(states[j], run[j], states[j + 1]) {
      assert StepAt(states, run, j);
      SpentStays(states, run, j + 1, i);
    }
  }

  /** Two writes start an upload whose first part is with the queue. */
  function TwoWrites(a: Bytes, b: Bytes): WriterView {
    WriterView(Some(0), [], Some(b), 1, Queue([WriteInput(0, 0, a)], 0, false), false, [Initiate(0)])
  }

  lemma TwoWritesRun(a: Bytes, b: Bytes) returns (s1: WriterView)
    ensures Step(NEW, Write(a, Ok), s1) && Step(s1, Write(b, Ok), TwoWrites(a, b))
  {
    s1 := NEW.(cache := Some(a));
    var s2 := TwoWrites(a, b);
    assert Started(s1, s2);
    assert s2 == HandOver(s1, 0).(cache := Some(b), uploadId := Some(0), log := s2.log);
  }

  /** Two writes, and then an `abort` that fails. */
  function TwoWritesAborted(a: Bytes, b: Bytes): WriterView {
    TwoWrites(a, b).(cache := None, aborted := true, queue := Queue([], 0, false))
  }

  /** All three ways: a `close` that fails late, one that succeeds, and an `abort` that fails. */
  lemma {:induction false} WriteCanPanic(a: Bytes, b: Bytes, c: Bytes, end: Call)
    returns (states: seq<WriterView>, run: seq<Call>)
    requires end == Close(Err) || end == Close(Ok) || end == Abort(Err)
    ensures IsRun(states, run) && run == [Write(a, Ok), Write(b, Ok), end, Write(c, Panicked)]
  {
    var s1 := TwoWritesRun(a, b);
    var s2 := TwoWrites(a, b);
    var handed := HandOver(s2, 0);
    var parts := [Output(WriteInput(0, 0, a), ""), Output(WriteInput(0, 1, b), "")];
    var s3 :=
      if end == Close(Err) then handed
      else if end == Abort(Err) then TwoWritesAborted(a, b)
      else handed.(parts := parts, queue := handed.queue.(delivered := 2), log := s2.log + [Complete(0, parts)]);
    assert Collected(handed, handed);
    assert handed.queue.accepted == [WriteInput(0, 0, a), WriteInput(0, 1, b)];
    assert Step(s2, end, s3);
    states, run := [NEW, s1, s2, s3, s3], [Write(a, Ok), Write(b, Ok), end, Write(c, Panicked)];
  }

  lemma {:induction false} AbortedStays(states: seq<WriterView>, run: seq<Call>, i: nat)
    requires IsRun(states, run) && i <= |run| && states[i].aborted
    ensures exists j | 0 <= j < i :: run[j].Abort? && states[j].uploadId.Some?
  {
    assert StepAt(states, run, i - 1);
    if states[i - 1].aborted {
      AbortedStays(states, run, i - 1);
    }
  }

  /**
    The check of the part numbers fails only behind an `abort`. There, a `close` that gets as far as the check fails it
    exactly if some part had been handed over and not been collected by an earlier `close`.
    */
  lemma {:induction false} MismatchIff(states: seq<WriterView>, run: seq<Call>, i: nat)
    requires IsRun(states, run) && i < |run| && run[i].Close?
    ensures run[i].outcome == Mismatch ==> exists j | 0 <= j < i :: run[j].Abort? && states[j].uploadId.Some?
    ensures states[i].aborted && run[i].outcome != Err ==>
              (run[i].outcome == Mismatch <==> |states[i].parts| < states[i].nextPartNumber)
  {
    RunKeepsInv(states, run, i);
    assert StepAt(states, run, i);
    CloseKeepsInv(states[i], run[i].outcome, states[i + 1], Content(states, run, i));
    if states[i].aborted {
      AbortedStays(states, run, i);
    }
  }

  /** The usual case: two writes, `abort`, and a `close` that finds a part missing. */
  lemma {:induction false} CloseAfterAbort(a: Bytes, b: Bytes) returns (states: seq<WriterView>, run: seq<Call>)
    ensures IsRun(states, run) && run == [Write(a, Ok), Write(b, Ok), Abort(Err), Close(Mismatch)]
  {
    var s1 := TwoWritesRun(a, b);
    var s2 := TwoWrites(a, b);
    var s3 := TwoWritesAborted(a, b);
    assert Step(s2, Abort(Err), s3);
    assert Collected(s3, s3);
    states, run := [NEW, s1, s2, s3, s3], [Write(a, Ok), Write(b, Ok), Abort(Err), Close(Mismatch)];
  }

  /**
    The unusual case: the upload was started but its first part could not be handed over. After an `abort` the numbers
    agree, at zero, and `close` completes the upload as an object without parts although a write had succeeded.
    */
  lemma {:induction false} CloseAfterAbortCanSucceed(a: Bytes, b: Bytes)
    returns (states: seq<WriterView>, run: seq<Call>)
    ensures IsRun(states, run) && run == [Write(a, Ok), Write(b, Err), Abort(Err), Close(Ok)]
    ensures states[4].log == [Initiate(0), Complete(0, [])]
  {
    var s1 := NEW.(cache := Some(a));
    var s2 := s1.(uploadId := Some(0), log := [Initiate(0)]);
    var s3 := s2.(cache := None, aborted := true);
    var s4 := s3.(log := [Initiate(0), Complete(0, [])]);
    assert Started(s1, s2);
    assert s4.log == s3.log + [Complete(0, [])];
    assert Asked(s3, s4);
    states, run := [NEW, s1, s2, s3, s4], [Write(a, Ok), Write(b, Err), Abort(Err), Close(Ok)];
  }

  /** Behind an `abort` that dropped nothing, a repeated `close` stores the right object. */
  lemma {:induction false} CloseAfterAbortCanBeRight(a: Bytes, b: Bytes)
    returns (states: seq<WriterView>, run: seq<Call>)
    ensures IsRun(states, run) && run == [Write(a, Ok), Write(b, Ok), Close(Err), Abort(Err), Close(Ok)]
    ensures |states[5].log| == 2 && StoresExactly(states[5].log[1], [a, b])
  {
    var s1 := TwoWritesRun(a, b);
    var s2 := TwoWrites(a, b);
    var handed := HandOver(s2, 0);
    var parts := [Output(WriteInput(0, 0, a), ""), Output(WriteInput(0, 1, b), "")];
    assert handed.queue.accepted == [WriteInput(0, 0, a), WriteInput(0, 1, b)];
    var s3 := handed.(parts := parts, queue := handed.queue.(delivered := 2));
    assert Collected(handed, s3);
    var s4 := s3.(aborted := true);
    assert s4.queue.accepted[..2] == s4.queue.accepted;
    assert Step(s3, Abort(Err), s4);
    var s5 := s4.(log := s4.log + [Complete(0, parts)]);
    assert Asked(s4, s5);
    states := [NEW, s1, s2, s3, s4, s5];
    run := [Write(a, Ok), Write(b, Ok), Close(Err), Abort(Err), Close(Ok)];
  }

  // ---------- The writer itself ----------

  /** The storage service; any request may fail, and a failed one may have been carried out. */
  class Service {
    var log: seq<Request>
    var failures: nat          // how many requests were reported as failed

    constructor ()
      ensures log == []
    {
      log, failures := [], 0;
    }

    method InitiatePart() returns (id: Option<nat>)
      modifies this
      ensures id.Some? ==> log == old(log) + [Initiate(id.value)]
      ensures MayHaveInitiated(old(log), log)
      ensures failures == old(failures) + if id.Some? then 0 else 1
    {
      var made: nat := *;
      var ok := Send(Initiate(made));
      id := if ok then Some(made) else None;
    }

    method Send(r: Request) returns (ok: bool)
      modifies this
      ensures MayHave(old(log), r, log) && (ok ==> log == old(log) + [r])
      ensures failures == old(failures) + if ok then 0 else 1
    {
      ok := false;
      if * {
        log := log + [r];
        ok := *;
      }
      failures := failures + if ok then 0 else 1;
    }
  }

  class Writer {
    const w: Service
    const tasks: Tasks<Input, string>
    var uploadId: Option<nat>
    var parts: seq<Part>
    var cache: Option<Bytes>
    var nextPartNumber: nat
    ghost var aborted: bool

    constructor (concurrent: nat)
      ensures Valid() && fresh(w) && fresh(tasks) && View() == NEW
    {
      w := new Service();
      tasks := new Tasks(concurrent, 8192);
      uploadId, parts, cache, nextPartNumber, aborted := None, [], None, 0, false;
    }

    ghost predicate Valid()
      reads this, tasks
    {
      tasks.Valid()
    }

    ghost function View(): WriterView
      reads this, tasks, w
    {
      WriterView(uploadId, parts, cache, nextPartNumber, tasks.View(), aborted, w.log)
    }

    /** How many requests and calls of the queue were reported as failed. */
    ghost function Failures(): nat
      reads tasks, w
    {
      w.failures + tasks.failures
    }

    /** Hands the cached part to the queue. */
    method SendCached(id: nat) returns (ok: bool)
      requires Valid() && cache.Some?
      modifies this`cache, this`nextPartNumber, tasks
      ensures Valid() && w.log == old(w.log)
      ensures ok <==> Failures() == old(Failures())
      ensures ok ==> View() == HandOver(old(View()), id)
      ensures !ok ==> SameQueue(old(tasks.View()), tasks.View()) && View() == old(View()).(queue := tasks.View())
    {
      var reply, _, _ := tasks.Execute(WriteInput(id, nextPartNumber, cache.value));
      ok := reply.Accepted?;
      if ok {
        cache := None;
        nextPartNumber := nextPartNumber + 1;
      }
    }

    method Write(bs: Bytes) returns (outcome: Outcome)
      requires Valid()
      modifies this, tasks, w
      ensures Valid() && WriteStep(old(View()), bs, outcome, View())
      ensures outcome == Err <==> Failures() != old(Failures())
    {
      if uploadId.None? {
        if cache.None? {
          cache := Some(bs);
          return Ok;
        }
        var id := w.InitiatePart();
        if id.None? {
          return Err;
        }
        uploadId := id;
      }
      if cache.None? {
        return Panicked;
      }
      var ok := SendCached(uploadId.value);
      if !ok {
        return Err;
      }
      cache := Some(bs);
      return Ok;
    }

    /** One turn of the loop of `close`. */
    method FetchPart() returns (reply: Reply<Input, string>)
      requires Valid()
      modifies this`parts, tasks
      ensures Valid() && w.log == old(w.log)
      ensures Fetched(old(View()), reply, View()) && !reply.Accepted?
      ensures reply.Failed? <==> Failures() != old(Failures())
    {
      ghost var before, last;
      reply, before, last := tasks.Next();
      if reply.Got? {
        parts := parts + [reply.output];
      }
    }

    /** Fetches parts until the queue is empty or fails. */
    method Collect() returns (ok: bool)
      requires Valid()
      modifies this`parts, tasks
      ensures Valid() && Collected(old(View()), View()) && w.log == old(w.log)
      ensures ok ==> tasks.View().delivered == |tasks.View().accepted|
      ensures ok <==> Failures() == old(Failures())
    {
      ghost var start := View();
      tasks.DeliversNoMore();
      while true
        invariant Valid() && Collected(start, View()) && w.log == start.log && Failures() == old(Failures())
        decreases |View().queue.accepted| - View().queue.delivered
      {
        ghost var before := View();
        var reply := FetchPart();
        CollectOne(start, before, reply, View());
        match reply
        case Got(_) =>
        case Drained => return true;
        case _ => return false;
      }
    }

    method Close() returns (outcome: Outcome)
      requires Valid()
      modifies this, tasks, w
      ensures Valid() && CloseStep(old(View()), outcome, View())
      ensures outcome == Err <==> Failures() != old(Failures())
    {
      if uploadId.None? {
        var stored := w.Send(WriteOnce(if cache.Some? then cache.value else []));
        if !stored {
          return Err;
        }
        cache := None;
        return Ok;
      }
      outcome := CompleteUpload();
    }

    method CompleteUpload() returns (outcome: Outcome)
      requires Valid() && uploadId.Some?
      modifies this`parts, this`cache, this`nextPartNumber, tasks, w
      ensures Valid() && CloseUploadStep(old(View()), uploadId.value, outcome, View())
      ensures outcome == Err <==> Failures() != old(Failures())
    {
      if cache.Some? {
        var handed := SendCached(uploadId.value);
        if !handed {
          return Err;
        }
      }
      assert View() == HandOver(old(View()), uploadId.value);
      outcome := CollectAndComplete();
    }

    method CollectAndComplete() returns (outcome: Outcome)
      requires Valid() && uploadId.Some? && cache.None?
      modifies this`parts, tasks, w
      ensures Valid() && CloseUploadStep(old(View()), uploadId.value, outcome, View())
      ensures outcome == Err <==> Failures() != old(Failures())
    {
      ghost var start := View();
      var ok := Collect();
      if !ok {
        return Err;
      }
      if |parts| != nextPartNumber {
        return Mismatch;
      }
      ghost var collected := View();
      ok := w.Send(Complete(uploadId.value, parts));
      CollectedWithAnyLog(start, collected, View());
      return if ok then Ok else Err;
    }

    method Abort() returns (outcome: Outcome)
      requires Valid()
      modifies this`cache, this`aborted, tasks, w
      ensures Valid() && AbortStep(old(View()), outcome, View())
      ensures outcome == Err <==> Failures() != old(Failures())
    {
      if uploadId.None? {
        return Ok;
      }
      tasks.Clear();
      cache, aborted := None, true;
      var ok := w.Send(AbortUpload(uploadId.value));
      return if ok then Ok else Err;
    }
  }
}
