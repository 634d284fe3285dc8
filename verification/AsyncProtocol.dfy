/**
  The completion protocol of the .NET binding as a state machine.

  Three parties work on one asynchronous operation: the thread that submits it, the native
  callback, and whoever cancels the token. They meet in `AsyncStateRegistry`, in the set-once
  `TaskCompletionSource`, and in the registration on the cancellation token. Every action
  below is one atomic step of the source; any number of operations interleave freely.

  The counter of `AsyncStateRegistry` is incremented fewer than 2^64 times, so it does not come
  back to an id that it drew before.

  The native task of an operation runs on an executor of `ExecutorTable`: the submitting call has looked one up and
  holds a clone of it. When nobody refers to an executor any more, its runtime shuts down and drops the tasks on it.
  */
module AsyncProtocol {
  import opened Common
  import opened AsyncRegistry
  import T = ExecutorTable

  /** What the native callback carries: a value, an error, or a payload whose conversion throws. */
  datatype NativeResult = Value(v: int) | Error(code: int) | Unconvertible(exception: int)

  /** The state of the `TaskCompletionSource`. */
  datatype Outcome =
    | Pending
    | Completed(v: int)
    | Failed(code: int)
    | Faulted(exception: int)
    | Canceled

  function OutcomeOf(native: NativeResult): Outcome {
    match native
    case Value(v) => Completed(v)
    case Error(code) => Failed(code)
    case Unconvertible(e) => Faulted(e)
  }

  /** Where the submitting thread stands in `SubmitAsyncOperation` and `BindCancellation`. */
  datatype Submitter =
    | Entered          // about to check the token
    | Admitted         // about to draw an id
    | Reserved         // an id is drawn, `TryAdd` is next
    | Registered       // about to call the native entry point
    | Accepted         // the native side took the task, `BindCancellation` is next
    | Rejecting        // an exception is in flight, the catch block is next
    | InlineCanceling  // the token was canceled already: its callback runs on this thread
    | Bound            // first `IsCompleted` check is next
    | Checked          // about to publish the registration
    | Published        // second `IsCompleted` check is next
    | Returned         // the task was handed to the caller
    | Threw            // the caller got an exception and no task

  /** The registration on the cancellation token, with the progress of its callback. */
  datatype Registration =
    | Unbound
    | Live
    | Unregistering    // the cancellation callback runs: `Unregister` is next
    | Canceling        // the cancellation callback runs: `TrySetCanceled` is next
    | Fired
    | Disposed

  /** The spawned native task and its managed callback. */
  datatype NativeTask =
    | NotSpawned
    | InFlight
    | Dropped          // the executor went away before the task finished
    | Taken            // the callback owns the state, `Dispose` of the registration is next
    | Settling         // about to read the native result and complete the task
    | Releasing        // about to release the native result
    | Released

  datatype Op = Op(
    ticket: nat,               // which increment drew the id; 0 before that
    ctx: Id,
    cancelable: bool,
    cancelRequested: bool,
    submitter: Submitter,
    registration: Registration,
    published: bool,           // the field `CancellationRegistration` is set
    task: NativeTask,
    executor: Option<T.Executor>,  // on which the native task was spawned
    native: Option<NativeResult>,
    outcome: Outcome,
    releases: nat,             // how often the native result was released
    strayRead: bool,           // the native result was read after its release
    took: bool,                // the callback found the state
    disposedEarly: bool,       // the callback disposed the field before it was published
    checkedEarly: bool         // the second check came before the outcome
  )

  function NewOp(cancelable: bool): Op {
    Op(0, 0, cancelable, false, Entered, Unbound, false, NotSpawned, None, None, Pending, 0, false, false, false, false)
  }

  datatype Action =
    | RequestCancel
    | RefuseCanceled
    | Admit
    | TryAdd
    | Accept(executor: T.Executor)
    | Reject
    | SkipBind
    | Bind
    | BindThrow
    | Fire
    | CancelUnregister
    | CancelSet
    | InlineDone
    | FirstCheck
    | Publish
    | SecondCheck
    | CatchUnregister
    | Drop
    | Take(native: NativeResult)
    | DisposeRegistration
    | Settle
    | Release

  /** `Dispose` of a registration waits while its callback runs on another thread. */
  predicate Running(r: Registration) {
    r.Unregistering? || r.Canceling?
  }

  function Dispose(r: Registration): Registration {
    if r.Live? then Disposed else r
  }

  function TrySet(current: Outcome, wanted: Outcome): Outcome {
    if current.Pending? then wanted else current
  }

  /** When an action can happen. `present` says that the registry holds the key `op.ctx`. */
  predicate Guard(op: Op, a: Action) {
    match a
    case RequestCancel => op.cancelable
    case RefuseCanceled => op.submitter.Entered? && op.cancelRequested
    case Admit => op.submitter.Entered? && !op.cancelRequested
    case TryAdd => op.submitter.Reserved?
    case Accept(_) => op.submitter.Registered?
    case Reject => op.submitter.Registered?
    case SkipBind => op.submitter.Accepted? && !op.cancelable
    case Bind => op.submitter.Accepted? && op.cancelable
    case BindThrow => op.submitter.Accepted? && op.cancelable
    case Fire => op.registration.Live? && op.cancelRequested
    case CancelUnregister => op.registration.Unregistering?
    case CancelSet => op.registration.Canceling?
    case InlineDone => op.submitter.InlineCanceling? && op.registration.Fired?
    case FirstCheck => op.submitter.Bound? && (op.outcome.Pending? || !Running(op.registration))
    case Publish => op.submitter.Checked?
    case SecondCheck => op.submitter.Published? && (op.outcome.Pending? || !Running(op.registration))
    case CatchUnregister => op.submitter.Rejecting?
    case Drop => op.task.InFlight?
    case Take(_) => op.task.InFlight?
    case DisposeRegistration => op.task.Taken? && !(op.published && Running(op.registration))
    case Settle => op.task.Settling? && op.native.Some?
    case Release => op.task.Releasing?
  }

  /** One step of one operation: its new record and whether the registry holds its key afterwards. */
  function Act(op: Op, present: bool, a: Action): (Op, bool)
    requires Guard(op, a)
  {
    match a
    case RequestCancel => (op.(cancelRequested := true), present)
    case RefuseCanceled => (op.(submitter := Threw), present)
    case Admit => (op.(submitter := Admitted), present)
    case TryAdd => if present then (op.(submitter := Admitted), true) else (op.(submitter := Registered), true)
    case Accept(x) => (op.(submitter := Accepted, task := InFlight, executor := Some(x)), present)
    case Reject => (op.(submitter := Rejecting), present)
    case SkipBind => (op.(submitter := Returned), present)
    case Bind =>
      if op.cancelRequested
      then (op.(submitter := InlineCanceling, registration := Unregistering), present)
      else (op.(submitter := Bound, registration := Live), present)
    case BindThrow => (op.(submitter := Rejecting), present)
    case Fire => (op.(registration := Unregistering), present)
    case CancelUnregister => (op.(registration := Canceling), false)
    case CancelSet => (op.(registration := Fired, outcome := TrySet(op.outcome, Canceled)), present)
    case InlineDone => (op.(submitter := Bound), present)
    case FirstCheck =>
      if op.outcome.Pending?
      then (op.(submitter := Checked), present)
      else (op.(submitter := Returned, registration := Dispose(op.registration)), present)
    case Publish => (op.(submitter := Published, published := true), present)
    case SecondCheck =>
      if op.outcome.Pending?
      then (op.(submitter := Returned, checkedEarly := true), present)
      else (op.(submitter := Returned, registration := Dispose(op.registration)), present)
    case CatchUnregister => (op.(submitter := Threw), false)
    case Drop => (op.(task := Dropped), present)
    case Take(native) =>
      if present
      then (op.(task := Taken, native := Some(native), took := true), false)
      else (op.(task := Releasing, native := Some(native)), false)
    case DisposeRegistration =>
      if op.published
      then (op.(task := Settling, registration := Dispose(op.registration)), present)
      else (op.(task := Settling, disposedEarly := true), present)
    case Settle =>
      (op.(task := Releasing, outcome := TrySet(op.outcome, OutcomeOf(op.native.value)),
           strayRead := op.strayRead || op.releases > 0), present)
    case Release => (op.(task := Released, releases := op.releases + 1), present)
  }

  /** Several steps of one operation in a row. */
  function ActAll(op: Op, present: bool, actions: seq<Action>): Option<(Op, bool)>
    decreases |actions|
  {
    if actions == [] then Some((op, present))
    else if Guard(op, actions[0]) then
      ActAll(Act(op, present, actions[0]).0, Act(op, present, actions[0]).1, actions[1..])
    else None
  }

  lemma ActAllCons(op: Op, present: bool, a: Action, rest: seq<Action>)
    requires Guard(op, a)
    ensures ActAll(op, present, [a] + rest) == ActAll(Act(op, present, a).0, Act(op, present, a).1, rest)
  {
    assert ([a] + rest)[1..] == rest;
  }

  // ---------- Many operations ----------

  datatype State = State(counter: nat, registry: map<Id, nat>, ops: seq<Op>, table: T.State)

  const INITIAL: State := State(0, map[], [], T.INITIAL)

  datatype Event = Enter(cancelable: bool) | Reserve(i: nat) | Do(i: nat, action: Action) | Table(event: T.Event)

  /**
    The native side accepts on the executor that the call of operation `i` has looked up; a runtime drops its tasks only
    when its executor is gone.
    */
  ghost predicate Enabled(s: State, e: Event) {
    match e
    case Enter(_) => true
    case Reserve(i) => i < |s.ops| && s.ops[i].submitter.Admitted? && s.counter + 1 < TWO_64
    case Do(i, a) =>
      && i < |s.ops| && Guard(s.ops[i], a)
      && (a.Accept? ==> i in s.table.held && s.table.held[i] == a.executor)
      && (a.Drop? ==> s.ops[i].executor.Some? && !T.Alive(s.table, s.ops[i].executor.value))
    case Table(t) => T.Enabled(s.table, t)
  }

  ghost function Apply(s: State, e: Event): State
    requires Enabled(s, e)
  {
    match e
    case Enter(cancelable) => s.(ops := s.ops + [NewOp(cancelable)])
    case Reserve(i) =>
      var n := s.counter + 1;
      s.(counter := n, ops := s.ops[i := s.ops[i].(ticket := n, ctx := Drawn(0, n), submitter := Reserved)])
    case Do(i, a) =>
      var (op', present') := Act(s.ops[i], s.ops[i].ctx in s.registry, a);
      Put(s, i, op', present')
    case Table(t) => s.(table := T.Apply(s.table, t))
  }

  /** Stores the new record of operation `i` and adds, keeps or removes its entry. */
  function Put(s: State, i: nat, op': Op, present': bool): State
    requires i < |s.ops|
  {
    var key := s.ops[i].ctx;
    var registry' :=
      if !present' then s.registry - {key}
      else if key in s.registry then s.registry
      else s.registry[key := i];
    State(s.counter, registry', s.ops[i := op'], s.table)
  }

  /** The state after a run, or `None` if some event of it was not enabled. */
  ghost function Exec(s: State, run: seq<Event>): Option<State>
    decreases |run|
  {
    if run == [] then Some(s)
    else if Enabled(s, run[0]) then Exec(Apply(s, run[0]), run[1..])
    else None
  }

  lemma {:induction false} ExecConcat(s: State, a: seq<Event>, b: seq<Event>)
    requires Exec(s, a).Some?
    ensures Exec(s, a + b) == Exec(Exec(s, a).value, b)
    decreases |a|
  {
    if a == [] {
      assert a + b == b;
    } else {
      assert (a + b)[1..] == a[1..] + b;
      ExecConcat(Apply(s, a[0]), a[1..], b);
    }
  }

  // ---------- The invariant ----------

  /** The native side was handed no task yet. */
  predicate BeforeAccept(p: Submitter) {
    p.Entered? || p.Admitted? || p.Reserved? || p.Registered?
  }

  /** A caller holds the task or is still going to get it. */
  predicate Promised(p: Submitter) {
    !(p.Entered? || p.Admitted? || p.Reserved? || p.Rejecting? || p.Threw?)
  }

  /** A party took the entry out of the registry and has not yet reached its `TrySet` call. */
  predicate Owed(op: Op) {
    op.task.Taken? || op.task.Settling? || op.registration.Canceling?
  }

  /** The registry holds the state of a running operation only. */
  ghost predicate EntryInv(op: Op, present: bool) {
    && (present ==> op.outcome.Pending? && !Owed(op))
    && (present ==> Promised(op.submitter) || op.submitter.Rejecting?)
    && (present ==> op.task.NotSpawned? || op.task.InFlight? || op.task.Dropped?)
    && (present ==> op.registration.Unbound? || op.registration.Live? || op.registration.Unregistering?)
    && (op.submitter.Registered? ==> present)
    && (Promised(op.submitter) && op.outcome.Pending? ==> present || Owed(op))
    && ((op.task.Releasing? || op.task.Released?) && op.outcome.Pending?
        ==> op.registration.Canceling? || op.submitter.Rejecting? || op.submitter.Threw?)
    && (op.task.InFlight? && !present ==> op.submitter.Threw? || op.registration.Canceling? || op.registration.Fired?)
  }

  ghost predicate PhaseInv(op: Op) {
    && (op.ticket == 0 ==> op.submitter.Entered? || op.submitter.Admitted? || op.submitter.Threw?)
    && (BeforeAccept(op.submitter) ==> op.task.NotSpawned?)
    && (op.ticket == 0 ==> op.task.NotSpawned?)
    && (Promised(op.submitter) && !op.submitter.Registered? ==> !op.task.NotSpawned?)
    && (BeforeAccept(op.submitter) || op.submitter.Accepted? || op.submitter.Rejecting? || op.submitter.Threw?
        ==> op.registration.Unbound?)
    && (op.registration.Unbound? && op.cancelable && Promised(op.submitter)
        ==> op.submitter.Registered? || op.submitter.Accepted?)
    && (!op.registration.Unbound? ==> op.cancelable)
    && (op.submitter.InlineCanceling? ==> Running(op.registration) || op.registration.Fired?)
    && (op.published ==> (op.submitter.Published? || op.submitter.Returned?) && !op.registration.Unbound?)
    && (op.submitter.Bound? || op.submitter.Checked? || op.submitter.Published? ==> !op.registration.Unbound?)
    && (op.submitter.Published? ==> op.published)
    && (Running(op.registration) || op.registration.Fired? ==> op.cancelRequested && op.cancelable)
    && (op.executor.Some? <==> !op.task.NotSpawned?)
  }

  /** Every outcome has its one legitimate cause. */
  ghost predicate OutcomeInv(op: Op) {
    && (op.outcome.Canceled? ==> op.registration.Fired?)
    && (op.registration.Fired? ==> !op.outcome.Pending?)
    && (!op.outcome.Pending? && !op.outcome.Canceled? ==>
          op.took && op.native.Some? && op.outcome == OutcomeOf(op.native.value)
          && (op.task.Releasing? || op.task.Released?))
    && (op.native.Some? <==> op.task.Taken? || op.task.Settling? || op.task.Releasing? || op.task.Released?)
    && (op.task.Taken? || op.task.Settling? ==> op.took)
    && (op.took ==> op.task.Taken? || op.task.Settling? || op.task.Releasing? || op.task.Released?)
    && (op.took && (op.task.Releasing? || op.task.Released?) ==> !op.outcome.Pending?)
    && (op.registration.Disposed? ==> !op.outcome.Pending? || op.task.Settling?)
  }

  ghost predicate ReleaseInv(op: Op) {
    && op.releases == (if op.task.Released? then 1 else 0)
    && !op.strayRead
  }

  /** Who disposes the registration. */
  ghost predicate DisposalInv(op: Op) {
    && (op.disposedEarly ==> op.took && !op.task.Taken?)
    && (op.took && !op.task.Taken? && !op.disposedEarly ==> op.registration.Disposed? || op.registration.Fired?)
    && (op.checkedEarly ==> op.submitter.Returned?)
    && (op.submitter.Returned? && op.registration.Live? ==> op.checkedEarly)
    && (op.disposedEarly && op.checkedEarly ==> !op.registration.Disposed?)
    && (op.disposedEarly && !op.submitter.Returned? ==> !op.registration.Disposed?)
    && (op.task.Settling? && op.registration.Disposed? && op.outcome.Pending? ==> !op.disposedEarly)
  }

  ghost predicate OpInv(op: Op, present: bool) {
    EntryInv(op, present) && PhaseInv(op) && OutcomeInv(op) && ReleaseInv(op) && DisposalInv(op)
  }

  ghost predicate KeysInv(s: State) {
    && s.counter < TWO_64
    && (forall i | 0 <= i < |s.ops| :: TicketOk(s, s.ops[i]))
    && (forall i, j | 0 <= i < j < |s.ops| ::
          s.ops[i].ticket == s.ops[j].ticket ==> s.ops[i].ticket == 0)
    && (forall k | k in s.registry ::
          s.registry[k] < |s.ops| && s.ops[s.registry[k]].ctx == k && s.ops[s.registry[k]].ticket != 0)
  }

  ghost predicate TicketOk(s: State, op: Op) {
    op.ticket <= s.counter < TWO_64 && op.ctx == Drawn(0, op.ticket)
  }

  ghost predicate OpsInv(s: State) {
    KeysInv(s) && forall i | 0 <= i < |s.ops| :: OpInv(s.ops[i], s.ops[i].ctx in s.registry)
  }

  /** A task runs on an executor that was looked up, and is dropped only if the handle of that executor is freed. */
  ghost predicate ExecutorOk(table: T.State, op: Op) {
    && (op.executor.Some? ==> T.Settled(table, op.executor.value))
    && (op.task.Dropped? ==> op.executor.Some? && T.Freed(table, op.executor.value))
  }

  ghost predicate ExecutorsInv(s: State) {
    T.Inv(s.table) && forall i | 0 <= i < |s.ops| :: ExecutorOk(s.table, s.ops[i])
  }

  ghost predicate Inv(s: State) {
    OpsInv(s) && ExecutorsInv(s)
  }

  // ---------- Every step keeps the invariant ----------

  predicate OfSubmitter(a: Action) {
    a.RefuseCanceled? || a.Admit? || a.TryAdd? || a.Accept? || a.Reject? || a.SkipBind? || a.Bind? || a.BindThrow?
    || a.InlineDone? || a.FirstCheck? || a.Publish? || a.SecondCheck? || a.CatchUnregister?
  }

  lemma SubmitterKeepsEntry(op: Op, present: bool, a: Action)
    requires Guard(op, a) && OpInv(op, present) && OfSubmitter(a)
    requires a.TryAdd? ==> !present
    ensures EntryInv(Act(op, present, a).0, Act(op, present, a).1)
  {
  }

  lemma OthersKeepEntry(op: Op, present: bool, a: Action)
    requires Guard(op, a) && OpInv(op, present) && !OfSubmitter(a)
    ensures EntryInv(Act(op, present, a).0, Act(op, present, a).1)
  {
  }

  lemma ActKeepsEntry(op: Op, present: bool, a: Action)
    requires Guard(op, a) && OpInv(op, present)
    requires a.TryAdd? ==> !present
    ensures EntryInv(Act(op, present, a).0, Act(op, present, a).1)
  {
    if OfSubmitter(a) {
      SubmitterKeepsEntry(op, present, a);
    } else {
      OthersKeepEntry(op, present, a);
    }
  }

  lemma SubmitterKeepsPhase(op: Op, present: bool, a: Action)
    requires Guard(op, a) && OpInv(op, present) && OfSubmitter(a)
    requires a.TryAdd? ==> !present
    ensures PhaseInv(Act(op, present, a).0)
  {
  }

  lemma OthersKeepPhase(op: Op, present: bool, a: Action)
    requires Guard(op, a) && OpInv(op, present) && !OfSubmitter(a)
    ensures PhaseInv(Act(op, present, a).0)
  {
  }

  lemma ActKeepsPhase(op: Op, present: bool, a: Action)
    requires Guard(op, a) && OpInv(op, present)
    requires a.TryAdd? ==> !present
    ensures PhaseInv(Act(op, present, a).0)
  {
    if OfSubmitter(a) {
      SubmitterKeepsPhase(op, present, a);
    } else {
      OthersKeepPhase(op, present, a);
    }
  }

  lemma ActKeepsRelease(op: Op, present: bool, a: Action)
    requires Guard(op, a) && OpInv(op, present)
    ensures ReleaseInv(Act(op, present, a).0)
  {
  }

  lemma ActKeepsOutcomeInv(op: Op, present: bool, a: Action)
    requires Guard(op, a) && OpInv(op, present)
    ensures OutcomeInv(Act(op, present, a).0)
  {
  }

  lemma ActKeepsDisposal(op: Op, present: bool, a: Action)
    requires Guard(op, a) && OpInv(op, present)
    ensures DisposalInv(Act(op, present, a).0)
  {
  }

  /** The keys of different operations never meet. */
  lemma KeysDiffer(s: State, i: nat, j: nat)
    requires KeysInv(s) && i < |s.ops| && j < |s.ops| && i != j
    ensures s.ops[i].ctx == s.ops[j].ctx ==> s.ops[i].ticket == s.ops[j].ticket == 0
    ensures s.ops[i].ctx in s.registry ==> s.registry[s.ops[i].ctx] == i && s.ops[i].ticket != 0
  {
    assert TicketOk(s, s.ops[i]) && TicketOk(s, s.ops[j]);
    if s.ops[i].ctx in s.registry {
      var k := s.registry[s.ops[i].ctx];
      assert TicketOk(s, s.ops[k]);
    }
  }

  lemma OwnEntry(s: State, i: nat)
    requires KeysInv(s) && i < |s.ops| && s.ops[i].ctx in s.registry
    ensures s.registry[s.ops[i].ctx] == i && s.ops[i].ticket != 0
  {
    var k := s.registry[s.ops[i].ctx];
    assert TicketOk(s, s.ops[i]) && TicketOk(s, s.ops[k]);
  }

  /** An id that was not drawn yet is not in use; zero never is. So `TryAdd` succeeds at once. */
  lemma UndrawnKeyIsFree(s: State, n: nat)
    requires KeysInv(s) && n < TWO_64 && (n == 0 || s.counter < n)
    ensures Drawn(0, n) !in s.registry
  {
    forall k | k in s.registry ensures k != Drawn(0, n) {
      assert TicketOk(s, s.ops[s.registry[k]]);
    }
  }

  lemma ReserveKeepsInv(s: State, i: nat)
    requires OpsInv(s) && Enabled(s, Reserve(i))
    ensures OpsInv(Apply(s, Reserve(i)))
  {
    var s' := Apply(s, Reserve(i));
    UndrawnKeyIsFree(s, s.counter + 1);
    forall j | 0 <= j < |s'.ops|
      ensures TicketOk(s', s'.ops[j])
      ensures OpInv(s'.ops[j], s'.ops[j].ctx in s'.registry)
    {
      assert TicketOk(s, s.ops[j]) && OpInv(s.ops[j], s.ops[j].ctx in s.registry);
    }
    forall k | k in s'.registry ensures s'.ops[s'.registry[k]].ctx == k && s'.ops[s'.registry[k]].ticket != 0 {
      assert OpInv(s.ops[s.registry[k]], k in s.registry);
    }
  }

  lemma PutKeepsKeys(s: State, i: nat, op': Op, present': bool)
    requires KeysInv(s) && i < |s.ops|
    requires op'.ctx == s.ops[i].ctx && op'.ticket == s.ops[i].ticket && (present' ==> op'.ticket != 0)
    ensures KeysInv(Put(s, i, op', present'))
  {
    var s' := Put(s, i, op', present');
    forall j | 0 <= j < |s'.ops| ensures TicketOk(s', s'.ops[j]) {
      assert TicketOk(s, s.ops[j]);
    }
  }

  lemma PutKeepsInv(s: State, i: nat, op': Op, present': bool)
    requires OpsInv(s) && i < |s.ops|
    requires op'.ctx == s.ops[i].ctx && op'.ticket == s.ops[i].ticket
    requires OpInv(op', present') && (present' ==> op'.ticket != 0)
    ensures OpsInv(Put(s, i, op', present'))
  {
    var s' := Put(s, i, op', present');
    PutKeepsKeys(s, i, op', present');
    forall j | 0 <= j < |s'.ops| ensures OpInv(s'.ops[j], s'.ops[j].ctx in s'.registry) {
      if j != i {
        KeysDiffer(s, i, j);
        UndrawnKeyIsFree(s, 0);
        assert TicketOk(s, s.ops[j]);
        assert OpInv(s.ops[j], s.ops[j].ctx in s.registry);
        assert s.ops[j].ctx in s'.registry <==> s.ops[j].ctx in s.registry;
      }
    }
  }

  lemma ActKeepsKey(op: Op, present: bool, a: Action)
    requires Guard(op, a)
    ensures Act(op, present, a).0.ctx == op.ctx && Act(op, present, a).0.ticket == op.ticket
    ensures Act(op, present, a).1 ==> present || op.submitter.Reserved?
  {
    match a
    case TryAdd =>
    case _ =>
  }

  lemma DoKeepsInv(s: State, i: nat, a: Action)
    requires OpsInv(s) && Enabled(s, Do(i, a))
    ensures OpsInv(Apply(s, Do(i, a)))
  {
    var op, present := s.ops[i], s.ops[i].ctx in s.registry;
    assert OpInv(op, present);
    ActKeepsEntry(op, present, a);
    ActKeepsPhase(op, present, a);
    ActKeepsRelease(op, present, a);
    ActKeepsOutcomeInv(op, present, a);
    ActKeepsDisposal(op, present, a);
    ActKeepsKey(op, present, a);
    if present {
      OwnEntry(s, i);
    }
    PutKeepsInv(s, i, Act(op, present, a).0, Act(op, present, a).1);
  }

  lemma StepKeepsOps(s: State, e: Event)
    requires OpsInv(s) && Enabled(s, e)
    ensures OpsInv(Apply(s, e))
  {
    match e
    case Enter(cancelable) =>
      var s' := Apply(s, e);
      UndrawnKeyIsFree(s, 0);
      forall j | 0 <= j < |s'.ops|
        ensures TicketOk(s', s'.ops[j])
        ensures OpInv(s'.ops[j], s'.ops[j].ctx in s'.registry)
      {
        if j < |s.ops| {
          assert TicketOk(s, s.ops[j]) && OpInv(s.ops[j], s.ops[j].ctx in s.registry);
        }
      }
    case Reserve(i) => ReserveKeepsInv(s, i);
    case Do(i, a) => DoKeepsInv(s, i, a);
    case Table(_) =>
  }

  lemma ActKeepsExecutor(op: Op, present: bool, a: Action)
    requires Guard(op, a)
    ensures Act(op, present, a).0.executor == if a.Accept? then Some(a.executor) else op.executor
    ensures Act(op, present, a).0.task.Dropped? ==> a.Drop? || op.task.Dropped?
  {
    match a
    case Accept(_) =>
    case Drop =>
    case _ =>
  }

  lemma DoKeepsExecutor(s: State, i: nat, a: Action)
    requires Inv(s) && Enabled(s, Do(i, a))
    ensures ExecutorOk(s.table, Act(s.ops[i], s.ops[i].ctx in s.registry, a).0)
  {
    var op, present := s.ops[i], s.ops[i].ctx in s.registry;
    assert ExecutorOk(s.table, op) && OpInv(op, present);
    ActKeepsExecutor(op, present, a);
    if a.Accept? {
      assert T.Settled(s.table, s.table.held[i]);
    } else if a.Drop? {
      T.AliveIff(s.table, op.executor.value);
    }
  }

  lemma TableKeepsExecutor(table: T.State, t: T.Event, op: Op)
    requires T.Inv(table) && T.Enabled(table, t) && ExecutorOk(table, op)
    ensures ExecutorOk(T.Apply(table, t), op)
  {
    T.StepGrows(table, t);
    if op.task.Dropped? {
      T.StaysFreed(table, t, op.executor.value);
    }
  }

  lemma StepKeepsExecutors(s: State, e: Event)
    requires Inv(s) && Enabled(s, e)
    ensures ExecutorsInv(Apply(s, e))
  {
    var s' := Apply(s, e);
    if e.Do? {
      DoKeepsExecutor(s, e.i, e.action);
    } else if e.Table? {
      T.StepKeepsInv(s.table, e.event);
    }
    forall j | 0 <= j < |s'.ops| ensures ExecutorOk(s'.table, s'.ops[j]) {
      if j < |s.ops| {
        assert ExecutorOk(s.table, s.ops[j]);
        if e.Table? {
          TableKeepsExecutor(s.table, e.event, s.ops[j]);
        }
      }
    }
  }

  lemma StepKeepsInv(s: State, e: Event)
    requires Inv(s) && Enabled(s, e)
    ensures Inv(Apply(s, e))
  {
    StepKeepsOps(s, e);
    StepKeepsExecutors(s, e);
  }

  /** The invariant holds in every state of every run. */
  lemma {:induction false} RunKeepsInv(s: State, run: seq<Event>)
    requires Inv(s) && Exec(s, run).Some?
    ensures Inv(Exec(s, run).value)
    decreases |run|
  {
    if run != [] {
      StepKeepsInv(s, run[0]);
      RunKeepsInv(Apply(s, run[0]), run[1..]);
    }
  }

  // ---------- Main results ----------

  /** Reached from the start by some run. */
  ghost predicate ReachedBy(run: seq<Event>, s: State) {
    Exec(INITIAL, run) == Some(s)
  }

  /**
    No orphaned task: a task that a caller holds and that is still pending is either in the registry
    under its own id, or was taken out by a party that still has its `TrySet` call before it.
    */
  lemma {:induction false} NoOrphanedTask(run: seq<Event>, s: State, i: nat)
    requires ReachedBy(run, s) && i < |s.ops|
    requires s.ops[i].submitter.Returned? && s.ops[i].outcome.Pending?
    ensures (s.ops[i].ctx in s.registry && s.registry[s.ops[i].ctx] == i) || Owed(s.ops[i])
  {
    RunKeepsInv(INITIAL, run);
    assert OpInv(s.ops[i], s.ops[i].ctx in s.registry);
    if s.ops[i].ctx in s.registry {
      OwnEntry(s, i);
    }
  }

  /**
    A set outcome has its cause: the result that this operation's own callback carried, or a
    cancellation that was requested on this operation's own token.
    */
  lemma {:induction false} OutcomeHasItsCause(run: seq<Event>, s: State, i: nat)
    requires ReachedBy(run, s) && i < |s.ops| && !s.ops[i].outcome.Pending?
    ensures var op := s.ops[i];
            match op.outcome
            case Completed(v) => op.native == Some(Value(v)) && op.took
            case Failed(code) => op.native == Some(Error(code)) && op.took
            case Faulted(exception) => op.native == Some(Unconvertible(exception)) && op.took
            case Canceled => op.cancelable && op.cancelRequested && op.registration.Fired?
            case Pending => false
    ensures s.ops[i].ctx !in s.registry
  {
    RunKeepsInv(INITIAL, run);
    assert OpInv(s.ops[i], s.ops[i].ctx in s.registry);
  }

  /** A callback that found its state and is past it has completed the task with its own result, or it was canceled. */
  lemma {:induction false} CallbackSettles(run: seq<Event>, s: State, i: nat)
    requires ReachedBy(run, s) && i < |s.ops| && s.ops[i].took
    requires s.ops[i].task.Releasing? || s.ops[i].task.Released?
    ensures var op := s.ops[i];
            && op.native.Some?
            && (op.outcome.Canceled? ||
                match op.native.value
                case Value(v) => op.outcome == Completed(v)
                case Error(code) => op.outcome == Failed(code)
                case Unconvertible(exception) => op.outcome == Faulted(exception))
  {
    RunKeepsInv(INITIAL, run);
    assert OpInv(s.ops[i], s.ops[i].ctx in s.registry);
  }

  lemma ActKeepsOutcome(op: Op, present: bool, a: Action)
    requires Guard(op, a) && !op.outcome.Pending?
    ensures Act(op, present, a).0.outcome == op.outcome
  {
    match a
    case Settle =>
    case CancelSet =>
    case _ =>
  }

  lemma OutcomeKept(s: State, e: Event, i: nat)
    requires Enabled(s, e) && i < |s.ops| && !s.ops[i].outcome.Pending?
    ensures i < |Apply(s, e).ops| && Apply(s, e).ops[i].outcome == s.ops[i].outcome
  {
    if e.Do? && e.i == i {
      ActKeepsOutcome(s.ops[i], s.ops[i].ctx in s.registry, e.action);
    }
  }

  /** Once an outcome is set, no continuation of the run changes it or brings the entry back. */
  lemma {:induction false} TerminalSafety(s: State, run: seq<Event>, i: nat)
    requires Inv(s) && Exec(s, run).Some? && i < |s.ops| && !s.ops[i].outcome.Pending?
    ensures var s' := Exec(s, run).value;
            i < |s'.ops| && s'.ops[i].outcome == s.ops[i].outcome && s'.ops[i].ctx !in s'.registry
    decreases |run|
  {
    assert OpInv(s.ops[i], s.ops[i].ctx in s.registry);
    if run != [] {
      StepKeepsInv(s, run[0]);
      OutcomeKept(s, run[0], i);
      TerminalSafety(Apply(s, run[0]), run[1..], i);
    }
  }

  /**
    A cancellation that arrives after the outcome, also through a registration that nobody disposed,
    changes neither the registry nor any outcome.
    */
  lemma {:induction false} LateCancellationIsHarmless(s: State, i: nat, a: Action)
    requires Inv(s) && Enabled(s, Do(i, a)) && !s.ops[i].outcome.Pending?
    requires a.RequestCancel? || a.Fire? || a.CancelUnregister? || a.CancelSet?
    ensures var s' := Apply(s, Do(i, a));
            s'.registry == s.registry && |s'.ops| == |s.ops| &&
            forall j | 0 <= j < |s.ops| :: s'.ops[j].outcome == s.ops[j].outcome
  {
    assert OpInv(s.ops[i], s.ops[i].ctx in s.registry);
  }

  /** How many callbacks of operation `i` a run contains. */
  function Callbacks(run: seq<Event>, i: nat): nat {
    if run == [] then 0
    else (if run[0].Do? && run[0].i == i && run[0].action.Take? then 1 else 0) + Callbacks(run[1..], i)
  }

  function Got(s: State, i: nat): nat {
    if i < |s.ops| && s.ops[i].native.Some? then 1 else 0
  }

  lemma ActKeepsNative(op: Op, present: bool, a: Action)
    requires Guard(op, a)
    ensures a.Take? ==> Act(op, present, a).0.native.Some?
    ensures !a.Take? ==> Act(op, present, a).0.native == op.native
  {
    match a
    case Take(_) =>
    case _ =>
  }

  lemma StepCountsCallback(s: State, e: Event, i: nat)
    requires Inv(s) && Enabled(s, e)
    ensures Got(Apply(s, e), i) - Got(s, i) == if e.Do? && e.i == i && e.action.Take? then 1 else 0
  {
    if e.Do? && e.i == i {
      assert OpInv(s.ops[i], s.ops[i].ctx in s.registry);
      ActKeepsNative(s.ops[i], s.ops[i].ctx in s.registry, e.action);
    }
  }

  lemma {:induction false} CallbacksCounted(s: State, run: seq<Event>, i: nat)
    requires Inv(s) && Exec(s, run).Some?
    ensures Got(s, i) + Callbacks(run, i) == Got(Exec(s, run).value, i)
    decreases |run|
  {
    if run != [] {
      StepCountsCallback(s, run[0], i);
      StepKeepsInv(s, run[0]);
      CallbacksCounted(Apply(s, run[0]), run[1..], i);
    }
  }

  /** No operation calls back twice, and one that was rejected or dropped does not call back. */
  lemma {:induction false} CallbackAtMostOnce(run: seq<Event>, s: State, i: nat)
    requires ReachedBy(run, s) && i < |s.ops|
    ensures Callbacks(run, i) <= 1
    ensures s.ops[i].task.NotSpawned? || s.ops[i].task.Dropped? ==> Callbacks(run, i) == 0
    ensures s.ops[i].task.Released? ==> Callbacks(run, i) == 1
  {
    CallbacksCounted(INITIAL, run, i);
    RunKeepsInv(INITIAL, run);
    assert OpInv(s.ops[i], s.ops[i].ctx in s.registry);
  }

  /**
    In every state the native result was released once if its callback ended and otherwise not at all; it was never
    read after that.
    */
  lemma {:induction false} NativeResultReleasedOnce(run: seq<Event>, s: State, i: nat)
    requires ReachedBy(run, s) && i < |s.ops|
    ensures s.ops[i].releases <= 1 && !s.ops[i].strayRead
    ensures s.ops[i].releases == 1 <==> s.ops[i].task.Released?
    ensures s.ops[i].releases <= Callbacks(run, i)
  {
    CallbackAtMostOnce(run, s, i);
    RunKeepsInv(INITIAL, run);
    assert OpInv(s.ops[i], s.ops[i].ctx in s.registry);
  }

  /** The submission failed before the native side had a task. */
  predicate Refused(op: Op) {
    (op.submitter.Rejecting? || op.submitter.Threw?) && op.task.NotSpawned?
  }

  lemma StepKeepsRefused(s: State, e: Event, i: nat)
    requires Inv(s) && Enabled(s, e) && i < |s.ops| && Refused(s.ops[i])
    ensures i < |Apply(s, e).ops| && Refused(Apply(s, e).ops[i])
    ensures !(e.Do? && e.i == i && e.action.Take?)
  {
    assert OpInv(s.ops[i], s.ops[i].ctx in s.registry);
  }

  /** After a rejected submission no task is spawned, so the catch block removes its own entry undisturbed. */
  lemma {:induction false} RejectedSubmissionStaysSilent(s: State, run: seq<Event>, i: nat)
    requires Inv(s) && Exec(s, run).Some? && i < |s.ops| && Refused(s.ops[i])
    ensures s.ops[i].ctx in s.registry ==> s.registry[s.ops[i].ctx] == i
    ensures Callbacks(run, i) == 0
    ensures var s' := Exec(s, run).value;
            && i < |s'.ops| && Refused(s'.ops[i]) && s'.ops[i].outcome.Pending?
            && (s'.ops[i].submitter.Threw? ==> s'.ops[i].ctx !in s'.registry)
    decreases |run|
  {
    assert OpInv(s.ops[i], s.ops[i].ctx in s.registry);
    if s.ops[i].ctx in s.registry {
      OwnEntry(s, i);
    }
    if run != [] {
      StepKeepsInv(s, run[0]);
      StepKeepsRefused(s, run[0], i);
      RejectedSubmissionStaysSilent(Apply(s, run[0]), run[1..], i);
    }
  }

  /** No step other than a request for cancellation can happen. */
  ghost predicate Quiescent(op: Op) {
    && !op.submitter.Admitted?
    && forall a: Action :: Guard(op, a) ==> a.RequestCancel?
  }

  /** The token was canceled before the submission looked at it, or the submission failed early. */
  predicate Doomed(op: Op) {
    ((op.submitter.Entered? && op.cancelRequested) || op.submitter.Threw?) && op.task.NotSpawned?
  }

  lemma ActKeepsDoomed(op: Op, present: bool, a: Action)
    requires Guard(op, a) && Doomed(op)
    ensures Doomed(Act(op, present, a).0) && !a.Take?
  {
    match a
    case RequestCancel =>
    case RefuseCanceled =>
    case _ =>
  }

  lemma StepKeepsDoomed(s: State, e: Event, i: nat)
    requires Enabled(s, e) && i < |s.ops| && Doomed(s.ops[i])
    ensures i < |Apply(s, e).ops| && Doomed(Apply(s, e).ops[i])
    ensures !(e.Do? && e.i == i && e.action.Take?)
  {
    if e.Do? && e.i == i {
      ActKeepsDoomed(s.ops[i], s.ops[i].ctx in s.registry, e.action);
    }
  }

  /**
    A token that was canceled before the submission: in every continuation the submission throws, if it goes on at all,
    leaves no entry, and nothing is spawned.
    */
  lemma {:induction false} CanceledBeforeSubmission(s: State, run: seq<Event>, i: nat)
    requires Inv(s) && Exec(s, run).Some? && i < |s.ops| && Doomed(s.ops[i])
    ensures var s' := Exec(s, run).value;
            && i < |s'.ops| && Doomed(s'.ops[i]) && s'.ops[i].ctx !in s'.registry
            && (Quiescent(s'.ops[i]) ==> s'.ops[i].submitter.Threw?)
    ensures Callbacks(run, i) == 0
    decreases |run|
  {
    assert OpInv(s.ops[i], s.ops[i].ctx in s.registry);
    if run == [] {
      assert Guard(s.ops[i], RefuseCanceled) ==> !RefuseCanceled.RequestCancel?;
    } else {
      StepKeepsInv(s, run[0]);
      StepKeepsDoomed(s, run[0], i);
      CanceledBeforeSubmission(Apply(s, run[0]), run[1..], i);
    }
  }

  lemma DoExec(s: State, i: nat, a: Action, rest: seq<Event>)
    requires Enabled(s, Do(i, a))
    ensures Exec(s, [Do(i, a)] + rest) == Exec(Apply(s, Do(i, a)), rest)
  {
    assert ([Do(i, a)] + rest)[1..] == rest;
  }

  /** A callback that finds no state takes none, sets no outcome and releases its result. */
  lemma {:induction false} SilentCallback(s: State, i: nat, native: NativeResult)
    requires i < |s.ops| && s.ops[i].task.InFlight? && s.ops[i].ctx !in s.registry
    ensures var end := Exec(s, [Do(i, Take(native))] + ([Do(i, Release)] + []));
            && end.Some? && end.value.registry == s.registry
            && end.value.ops == s.ops[i := s.ops[i].(task := Released, native := Some(native),
                                                     releases := s.ops[i].releases + 1)]
  {
    var s1 := Apply(s, Do(i, Take(native)));
    DoExec(s, i, Take(native), [Do(i, Release)] + []);
    DoExec(s1, i, Release, []);
    assert s1.registry == s.registry;
  }

  /**
    Binding to a token can throw when the native side has the task already. The caller gets the exception and the entry
    is removed; a callback that comes then finds no state (`SilentCallback`).
    */
  lemma {:induction false} FailedBindingIsSilent(s: State, i: nat)
    requires i < |s.ops| && s.ops[i].submitter.Accepted? && s.ops[i].cancelable
    ensures var end := Exec(s, [Do(i, BindThrow)] + ([Do(i, CatchUnregister)] + []));
            && end.Some? && end.value.registry == s.registry - {s.ops[i].ctx}
            && end.value.ops == s.ops[i := s.ops[i].(submitter := Threw)]
  {
    var s1 := Apply(s, Do(i, BindThrow));
    DoExec(s, i, BindThrow, [Do(i, CatchUnregister)] + []);
    DoExec(s1, i, CatchUnregister, []);
    assert s1.registry == s.registry;
  }

  // ---------- The registration that nobody disposes ----------

  /**
    When the callback has run to its end and no cancellation was requested, the registration is left
    behind exactly if the callback's `Dispose` came before the field was published and the second
    check came before the outcome.
    */
  lemma {:induction false} RegistrationLeftBehindIff(run: seq<Event>, s: State, i: nat)
    requires ReachedBy(run, s) && i < |s.ops|
    requires s.ops[i].submitter.Returned? && s.ops[i].task.Released?
    requires s.ops[i].cancelable && !s.ops[i].cancelRequested
    ensures s.ops[i].registration.Live? <==> s.ops[i].disposedEarly && s.ops[i].checkedEarly
    ensures !s.ops[i].registration.Live? <==> s.ops[i].registration.Disposed?
    ensures !s.ops[i].outcome.Pending?
  {
    RunKeepsInv(INITIAL, run);
    assert OpInv(s.ops[i], s.ops[i].ctx in s.registry);
  }

  lemma Extend(run: seq<Event>, s: State, e: Event)
    requires ReachedBy(run, s) && Enabled(s, e)
    ensures ReachedBy(run + [e], Apply(s, e))
  {
    ExecConcat(INITIAL, run, [e]);
    assert Exec(s, [e]) == Exec(Apply(s, e), []);
  }

  /** The state in which `op` is alone. */
  function Alone(op: Op, present: bool, table: T.State): State {
    State(1, if present then map[op.ctx := 0] else map[], [op], table)
  }

  lemma Play(run: seq<Event>, op: Op, present: bool, table: T.State, a: Action)
    requires ReachedBy(run, Alone(op, present, table)) && Enabled(Alone(op, present, table), Do(0, a))
    requires Act(op, present, a).0.ctx == op.ctx
    ensures ReachedBy(run + [Do(0, a)], Alone(Act(op, present, a).0, Act(op, present, a).1, table))
  {
    Extend(run, Alone(op, present, table), Do(0, a));
    var op', present' := Act(op, present, a).0, Act(op, present, a).1;
    assert Apply(Alone(op, present, table), Do(0, a)).ops == [op'];
    assert Apply(Alone(op, present, table), Do(0, a)).registry == Alone(op', present', table).registry;
  }

  /** The tables of a run of the executors alone. */
  lemma {:induction false} TableAlone(events: seq<T.Event>, table: T.State) returns (run: seq<Event>)
    requires T.ReachedBy(events, table)
    ensures ReachedBy(run, INITIAL.(table := table))
  {
    if events == [] {
      run := [];
    } else {
      var front := T.Exec(T.INITIAL, events[..|events| - 1]).value;
      var before := TableAlone(events[..|events| - 1], front);
      Extend(before, INITIAL.(table := front), Table(events[|events| - 1]));
      run := before + [Table(events[|events| - 1])];
    }
  }

  /** Operation 0 holds a clone of the default executor. */
  const DEFAULTED: T.State :=
    T.State(Some(0), 1, map[], map[], map[0 := 0], [T.Chosen], map[], [T.Default(0)])

  lemma DefaultedIsReached() returns (events: seq<T.Event>)
    ensures T.ReachedBy(events, DEFAULTED)
  {
    var t1 := T.Apply(T.INITIAL, T.AskDefault(0));
    var t2 := T.Apply(t1, T.FirstGet(0));
    var t3 := T.Apply(t2, T.BuildDefault(0, true));
    T.Extend([], T.INITIAL, T.AskDefault(0));
    events := [] + [T.AskDefault(0)];
    T.Extend(events, t1, T.FirstGet(0));
    events := events + [T.FirstGet(0)];
    T.Extend(events, t2, T.BuildDefault(0, true));
    events := events + [T.BuildDefault(0, true)];
    T.Extend(events, t3, T.SetDefault(0));
    events := events + [T.SetDefault(0)];
    assert T.Apply(t3, T.SetDefault(0)) == DEFAULTED;
  }

  function ReservedOp(cancelable: bool): Op {
    NewOp(cancelable).(ticket := 1, ctx := 1, submitter := Reserved)
  }

  lemma ReservedIsReached(events: seq<T.Event>, table: T.State, cancelable: bool) returns (run: seq<Event>)
    requires T.ReachedBy(events, table)
    ensures ReachedBy(run, Alone(ReservedOp(cancelable), false, table))
  {
    run := TableAlone(events, table);
    var s := INITIAL.(table := table);
    var s0 := Apply(s, Enter(cancelable));
    Extend(run, s, Enter(cancelable));
    run := run + [Enter(cancelable)];
    var s1 := Apply(s0, Do(0, Admit));
    Extend(run, s0, Do(0, Admit));
    run := run + [Do(0, Admit)];
    Extend(run, s1, Reserve(0));
    run := run + [Reserve(0)];
    assert Apply(s1, Reserve(0)).ops == [ReservedOp(cancelable)];
  }

  /** The callback has disposed the field, which is not set yet. */
  const DISPOSED_EARLY: Op := ReservedOp(true).(submitter := Bound, registration := Live, task := Settling,
                                                executor := Some(0), native := Some(Value(7)), took := true,
                                                disposedEarly := true)

  lemma DisposedEarlyIsReached() returns (run: seq<Event>)
    ensures ReachedBy(run, Alone(DISPOSED_EARLY, false, DEFAULTED))
  {
    var events := DefaultedIsReached();
    run := ReservedIsReached(events, DEFAULTED, true);
    Play(run, ReservedOp(true), false, DEFAULTED, TryAdd);
    run := run + [Do(0, TryAdd)];
    var o1 := ReservedOp(true).(submitter := Registered);
    Play(run, o1, true, DEFAULTED, Accept(0));
    run := run + [Do(0, Accept(0))];
    var o2 := o1.(submitter := Accepted, task := InFlight, executor := Some(0));
    Play(run, o2, true, DEFAULTED, Bind);
    run := run + [Do(0, Bind)];
    var o3 := o2.(submitter := Bound, registration := Live);
    Play(run, o3, true, DEFAULTED, Take(Value(7)));
    run := run + [Do(0, Take(Value(7)))];
    Play(run, o3.(task := Taken, native := Some(Value(7)), took := true), false, DEFAULTED, DisposeRegistration);
    run := run + [Do(0, DisposeRegistration)];
  }

  /** The interleaving exists: the source can leave a live registration behind. */
  lemma RegistrationCanBeLeftBehind() returns (run: seq<Event>, s: State)
    ensures ReachedBy(run, s) && |s.ops| == 1
    ensures s.ops[0].submitter.Returned? && s.ops[0].task.Released? && s.ops[0].outcome == Completed(7)
    ensures s.ops[0].registration.Live?
  {
    run := DisposedEarlyIsReached();
    // the submitter publishes the registration and sees a pending task twice
    Play(run, DISPOSED_EARLY, false, DEFAULTED, FirstCheck);
    run := run + [Do(0, FirstCheck)];
    var o1 := DISPOSED_EARLY.(submitter := Checked);
    Play(run, o1, false, DEFAULTED, Publish);
    run := run + [Do(0, Publish)];
    var o2 := o1.(submitter := Published, published := true);
    Play(run, o2, false, DEFAULTED, SecondCheck);
    run := run + [Do(0, SecondCheck)];
    // only now the callback completes the task
    var o3 := o2.(submitter := Returned, checkedEarly := true);
    Play(run, o3, false, DEFAULTED, Settle);
    run := run + [Do(0, Settle)];
    var o4 := o3.(task := Releasing, outcome := Completed(7));
    Play(run, o4, false, DEFAULTED, Release);
    run := run + [Do(0, Release)];
    s := Alone(o4.(task := Released, releases := 1), false, DEFAULTED);
  }

  // ---------- Nothing gets stuck ----------

  function SubmitterLeft(p: Submitter): nat {
    match p
    case Entered => 10 case Admitted => 9 case Reserved => 8 case Registered => 7 case Accepted => 6
    case InlineCanceling => 5 case Rejecting => 5 case Bound => 4 case Checked => 3 case Published => 2
    case Returned => 0 case Threw => 0
  }

  function RegistrationLeft(r: Registration): nat {
    match r
    case Unbound => 5 case Live => 4 case Unregistering => 3 case Canceling => 2 case Fired => 0 case Disposed => 0
  }

  function TaskLeft(t: NativeTask): nat {
    match t
    case NotSpawned => 7 case InFlight => 6 case Taken => 4 case Settling => 3 case Releasing => 2
    case Dropped => 0 case Released => 0
  }

  /** A bound on the steps that an operation has left, not counting cancellation requests. */
  function Left(op: Op): nat {
    SubmitterLeft(op.submitter) + RegistrationLeft(op.registration) + TaskLeft(op.task)
  }

  lemma SubmitterStepCounts(op: Op, present: bool, a: Action)
    requires Guard(op, a) && OfSubmitter(a) && (a.TryAdd? ==> !present)
    requires PhaseInv(op)
    ensures Left(Act(op, present, a).0) < Left(op)
  {
  }

  lemma OtherStepCounts(op: Op, present: bool, a: Action)
    requires Guard(op, a) && !OfSubmitter(a) && !a.RequestCancel?
    ensures Left(Act(op, present, a).0) < Left(op)
  {
  }

  lemma EveryStepCounts(op: Op, present: bool, a: Action)
    requires Guard(op, a) && !a.RequestCancel? && (a.TryAdd? ==> !present)
    requires PhaseInv(op)
    ensures Left(Act(op, present, a).0) < Left(op)
  {
    if OfSubmitter(a) {
      SubmitterStepCounts(op, present, a);
    } else {
      OtherStepCounts(op, present, a);
    }
  }

  predicate StepOf(e: Event, i: nat) {
    e == Reserve(i) || (e.Do? && e.i == i && !e.action.RequestCancel?)
  }

  /** How many steps of operation `i` a run contains, not counting cancellation requests. */
  function Steps(run: seq<Event>, i: nat): nat {
    if run == [] then 0
    else (if StepOf(run[0], i) then 1 else 0)
         + Steps(run[1..], i)
  }

  lemma ActKeepsLeft(s: State, e: Event, i: nat)
    requires Inv(s) && Enabled(s, e) && i < |s.ops|
    ensures i < |Apply(s, e).ops|
    ensures Left(Apply(s, e).ops[i]) + Steps([e], i) <= Left(s.ops[i])
  {
    assert OpInv(s.ops[i], s.ops[i].ctx in s.registry);
    if e.Do? && e.i == i && !e.action.RequestCancel? {
      EveryStepCounts(s.ops[i], s.ops[i].ctx in s.registry, e.action);
    }
  }

  /** However a run goes on, an operation takes no more steps than `Left` allows; a new one allows 22. */
  lemma {:induction false} OperationTakesFewSteps(s: State, run: seq<Event>, i: nat)
    requires Inv(s) && Exec(s, run).Some? && i < |s.ops|
    ensures i < |Exec(s, run).value.ops|
    ensures Steps(run, i) + Left(Exec(s, run).value.ops[i]) <= Left(s.ops[i])
    decreases |run|
  {
    if run != [] {
      ActKeepsLeft(s, run[0], i);
      assert Steps([run[0]], i) + Steps(run[1..], i) == Steps(run, i);
      StepKeepsInv(s, run[0]);
      OperationTakesFewSteps(Apply(s, run[0]), run[1..], i);
    }
  }

  /** An action that is due, if there is one. */
  function Due(op: Op): Option<Action> {
    match op.registration
    case Unregistering => Some(CancelUnregister)
    case Canceling => Some(CancelSet)
    case _ =>
      match op.submitter
      case Entered => Some(if op.cancelRequested then RefuseCanceled else Admit)
      case Reserved => Some(TryAdd)
      case Registered => Some(Reject)
      case Accepted => Some(if op.cancelable then Bind else SkipBind)
      case Rejecting => Some(CatchUnregister)
      case InlineCanceling => Some(InlineDone)
      case Bound => Some(FirstCheck)
      case Checked => Some(Publish)
      case Published => Some(SecondCheck)
      case _ =>
        match op.task
        case InFlight => Some(Take(Value(0)))
        case Taken => Some(DisposeRegistration)
        case Settling => Some(Settle)
        case Releasing => Some(Release)
        case _ => None
  }

  lemma DueIsPossible(op: Op)
    requires PhaseInv(op) && OutcomeInv(op) && Due(op).Some?
    ensures Guard(op, Due(op).value) && !Due(op).value.RequestCancel?
  {
  }

  /**
    Every operation comes to rest (`OperationTakesFewSteps`), and a task at rest is complete unless the executor
    dropped its native half: no deadlock between `Dispose` and the cancellation callback, no lost completion.
    */
  lemma {:induction false} RestMeansDone(run: seq<Event>, s: State, i: nat)
    requires ReachedBy(run, s) && i < |s.ops| && Quiescent(s.ops[i])
    ensures s.ops[i].submitter.Returned? ==> (s.ops[i].outcome.Pending? ==> s.ops[i].task.Dropped?)
    ensures s.ops[i].submitter.Returned? || s.ops[i].submitter.Threw?
    ensures s.ops[i].submitter.Threw? || !s.ops[i].outcome.Pending? ==> s.ops[i].ctx !in s.registry
  {
    RunKeepsInv(INITIAL, run);
    assert OpInv(s.ops[i], s.ops[i].ctx in s.registry);
    if Due(s.ops[i]).Some? {
      DueIsPossible(s.ops[i]);
      assert false;
    }
  }

  predicate IsRequest(e: Event, i: nat) {
    e == Do(i, RequestCancel)
  }

  lemma ActKeepsRequest(op: Op, present: bool, a: Action)
    requires Guard(op, a)
    ensures Act(op, present, a).0.cancelRequested == (op.cancelRequested || a.RequestCancel?)
  {
    match a
    case RequestCancel =>
    case _ =>
  }

  /** A token counts as canceled exactly if a cancellation was requested on it. */
  lemma {:induction false} CancelRequestedIff(s: State, run: seq<Event>, i: nat)
    requires Exec(s, run).Some? && i < |s.ops|
    ensures i < |Exec(s, run).value.ops|
    ensures Exec(s, run).value.ops[i].cancelRequested <==>
            s.ops[i].cancelRequested || exists k | 0 <= k < |run| :: IsRequest(run[k], i)
    decreases |run|
  {
    if run != [] {
      if run[0].Do? && run[0].i == i {
        ActKeepsRequest(s.ops[i], s.ops[i].ctx in s.registry, run[0].action);
      }
      CancelRequestedIff(Apply(s, run[0]), run[1..], i);
      assert forall k | 0 < k < |run| :: run[k] == run[1..][k - 1];
      if k :| 0 <= k < |run[1..]| && IsRequest(run[1..][k], i) {
        assert IsRequest(run[k + 1], i);
      }
    }
  }

  /** At rest, a cancellation that was requested has run, or the registration was disposed before. */
  lemma CancellationRests(op: Op)
    requires PhaseInv(op) && Quiescent(op) && op.submitter.Returned? && op.cancelable && op.cancelRequested
    ensures op.registration.Fired? || op.registration.Disposed?
  {
    assert !Guard(op, Fire) && !Guard(op, CancelUnregister) && !Guard(op, CancelSet);
  }

  /** Cancellation works: an operation at rest whose token was canceled is complete, also if its task was dropped. */
  lemma {:induction false} CanceledMeansDone(run: seq<Event>, s: State, i: nat)
    requires ReachedBy(run, s) && i < |s.ops| && Quiescent(s.ops[i])
    requires s.ops[i].submitter.Returned? && s.ops[i].cancelable && s.ops[i].cancelRequested
    ensures !s.ops[i].outcome.Pending?
    ensures s.ops[i].task.Dropped? ==> s.ops[i].outcome.Canceled?
  {
    RunKeepsInv(INITIAL, run);
    assert OpInv(s.ops[i], s.ops[i].ctx in s.registry);
    RestMeansDone(run, s, i);
    CancellationRests(s.ops[i]);
  }

  /** Whoever cancels the token of a pending operation that is bound to it can end it at once. */
  lemma {:induction false} CancellationIsPossible(s: State, i: nat)
    requires Inv(s) && i < |s.ops| && s.ops[i].registration.Live? && s.ops[i].outcome.Pending?
    ensures var end := Exec(s, [Do(i, RequestCancel)] + ([Do(i, Fire)] + ([Do(i, CancelUnregister)] +
                               ([Do(i, CancelSet)] + []))));
            && end.Some? && i < |end.value.ops|
            && end.value.ops[i].outcome.Canceled? && s.ops[i].ctx !in end.value.registry
  {
    assert OpInv(s.ops[i], s.ops[i].ctx in s.registry);
    var s1 := Apply(s, Do(i, RequestCancel));
    var s2 := Apply(s1, Do(i, Fire));
    var s3 := Apply(s2, Do(i, CancelUnregister));
    DoExec(s, i, RequestCancel, [Do(i, Fire)] + ([Do(i, CancelUnregister)] + ([Do(i, CancelSet)] + [])));
    DoExec(s1, i, Fire, [Do(i, CancelUnregister)] + ([Do(i, CancelSet)] + []));
    DoExec(s2, i, CancelUnregister, [Do(i, CancelSet)] + []);
    DoExec(s3, i, CancelSet, []);
  }

  /** The caller waits for a task whose native half is gone, and cannot cancel it. */
  predicate Abandoned(op: Op) {
    op.task.Dropped? && op.submitter.Returned? && !op.cancelable && op.outcome.Pending?
  }

  lemma StepKeepsAbandoned(s: State, e: Event, i: nat)
    requires Inv(s) && Enabled(s, e) && i < |s.ops| && Abandoned(s.ops[i])
    ensures i < |Apply(s, e).ops| && Abandoned(Apply(s, e).ops[i])
  {
    assert OpInv(s.ops[i], s.ops[i].ctx in s.registry);
    assert !(e.Do? && e.i == i);
  }

  /** The exception is real: once its task is dropped, an operation without a cancelable token pends for ever. */
  lemma {:induction false} DroppedTaskPendsForever(s: State, run: seq<Event>, i: nat)
    requires Inv(s) && Exec(s, run).Some? && i < |s.ops|
    requires s.ops[i].task.Dropped? && s.ops[i].submitter.Returned? && !s.ops[i].cancelable
    requires s.ops[i].outcome.Pending?
    ensures var s' := Exec(s, run).value;
            i < |s'.ops| && s'.ops[i].outcome.Pending? && s'.ops[i].ctx in s'.registry
    decreases |run|
  {
    assert OpInv(s.ops[i], s.ops[i].ctx in s.registry);
    if run != [] {
      StepKeepsInv(s, run[0]);
      StepKeepsAbandoned(s, run[0], i);
      DroppedTaskPendsForever(Apply(s, run[0]), run[1..], i);
    }
  }
}
