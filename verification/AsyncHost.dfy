/**
  The methods of the .NET binding as they are written: `BindCancellation`, `CompleteAsyncState`,
  `CompleteAsyncCallback` and `SubmitAsyncOperation`, run by one thread without interference.
  Each is tied to the atomic actions of `AsyncProtocol` that it performs.

  Exceptions are results. Native results carry a typestate: reading one that was released, or
  releasing one twice, violates a precondition.
  */
module AsyncHost {
  import opened Common
  import opened AsyncRegistry
  import opened AsyncProtocol
  import T = ExecutorTable

  /** A native result that the managed side must release exactly once. */
  class NativeHandle {
    const result: NativeResult
    var released: bool

    constructor (result: NativeResult)
      ensures this.result == result && !released
    {
      this.result := result;
      released := false;
    }

    /** `GetError().IsError` with the error code. */
    method GetError() returns (error: Option<int>)
      requires !released
      ensures error == if result.Error? then Some(result.code) else None
    {
      if result.Error? {
        return Some(result.code);
      }
      error := None;
    }

    /** The converted value, or the exception that the conversion throws. */
    method ToValue() returns (value: Option<int>, exception: int)
      requires !released && !result.Error?
      ensures result.Value? ==> value == Some(result.v)
      ensures result.Unconvertible? ==> value == None && exception == result.exception
    {
      if result.Value? {
        return Some(result.v), 0;
      }
      return None, result.exception;
    }

    method Release()
      requires !released
      modifies this
      ensures released
    {
      released := true;
    }
  }

  // ---------- The actions of an undisturbed `BindCancellation` ----------

  function BindTrace(op: Op): seq<Action> {
    if !op.cancelable then [SkipBind]
    else if op.cancelRequested then [Bind] + ([CancelUnregister] + ([CancelSet] + ([InlineDone] + [FirstCheck])))
    else if !op.outcome.Pending? then [Bind] + [FirstCheck]
    else [Bind] + ([FirstCheck] + ([Publish] + [SecondCheck]))
  }

  /** Where `BindTrace` leads. */
  function BindEnd(op: Op): Op {
    if !op.cancelable then op.(submitter := Returned)
    else if op.cancelRequested then
      op.(submitter := Returned, registration := Fired, outcome := TrySet(op.outcome, Canceled))
    else if !op.outcome.Pending? then op.(submitter := Returned, registration := Disposed)
    else op.(submitter := Returned, registration := Live, published := true, checkedEarly := true)
  }

  lemma ActAllOne(op: Op, present: bool, a: Action)
    requires Guard(op, a)
    ensures ActAll(op, present, [a]) == Some(Act(op, present, a))
  {
    assert [a][1..] == [];
  }

  lemma InlineCancelRuns(op: Op, present: bool)
    requires op.submitter.Accepted? && op.registration.Unbound? && op.cancelable && op.cancelRequested
    ensures ActAll(op, present, BindTrace(op)) == Some((BindEnd(op), false))
  {
    ActAllCons(op, present, Bind, BindTrace(op)[1..]);
    assert BindTrace(op)[1..] == [CancelUnregister] + ([CancelSet] + ([InlineDone] + [FirstCheck]));
    var o1 := op.(submitter := InlineCanceling, registration := Unregistering);
    ActAllCons(o1, present, CancelUnregister, [CancelSet] + ([InlineDone] + [FirstCheck]));
    var o2 := o1.(registration := Canceling);
    ActAllCons(o2, false, CancelSet, [InlineDone] + [FirstCheck]);
    var o3 := o2.(registration := Fired, outcome := TrySet(op.outcome, Canceled));
    ActAllCons(o3, false, InlineDone, [FirstCheck]);
    ActAllOne(o3.(submitter := Bound), false, FirstCheck);
  }

  lemma LateBindRuns(op: Op, present: bool)
    requires op.submitter.Accepted? && op.registration.Unbound? && op.cancelable && !op.cancelRequested
    requires !op.outcome.Pending?
    ensures ActAll(op, present, BindTrace(op)) == Some((BindEnd(op), present))
  {
    ActAllCons(op, present, Bind, [FirstCheck]);
    ActAllOne(op.(submitter := Bound, registration := Live), present, FirstCheck);
  }

  lemma PlainBindRuns(op: Op, present: bool)
    requires op.submitter.Accepted? && op.registration.Unbound? && op.cancelable && !op.cancelRequested
    requires op.outcome.Pending?
    ensures ActAll(op, present, BindTrace(op)) == Some((BindEnd(op), present))
  {
    ActAllCons(op, present, Bind, [FirstCheck] + ([Publish] + [SecondCheck]));
    var o1 := op.(submitter := Bound, registration := Live);
    ActAllCons(o1, present, FirstCheck, [Publish] + [SecondCheck]);
    var o2 := o1.(submitter := Checked);
    ActAllCons(o2, present, Publish, [SecondCheck]);
    ActAllOne(o2.(submitter := Published, published := true), present, SecondCheck);
  }

  lemma BindTraceRuns(op: Op, present: bool)
    requires op.submitter.Accepted? && op.registration.Unbound?
    requires op.cancelRequested ==> op.cancelable
    ensures ActAll(op, present, BindTrace(op)) == Some((BindEnd(op), present && !op.cancelRequested))
  {
    if !op.cancelable {
      ActAllOne(op, present, SkipBind);
    } else if op.cancelRequested {
      InlineCancelRuns(op, present);
    } else if op.outcome.Pending? {
      PlainBindRuns(op, present);
    } else {
      LateBindRuns(op, present);
    }
  }

  // ---------- The actions of an undisturbed callback ----------

  function CallbackTrace(present: bool, native: NativeResult): seq<Action> {
    if present then [Take(native)] + ([DisposeRegistration] + ([Settle] + [Action.Release]))
    else [Take(native)] + [Action.Release]
  }

  /** Where `CallbackTrace` leads. */
  function CallbackEnd(op: Op, present: bool, native: NativeResult): Op {
    var ended := op.(task := Released, native := Some(native), releases := op.releases + 1);
    if !present then ended
    else ended.(took := true,
                registration := if op.published then Dispose(op.registration) else op.registration,
                disposedEarly := op.disposedEarly || !op.published,
                outcome := TrySet(op.outcome, OutcomeOf(native)),
                strayRead := op.strayRead || op.releases > 0)
  }

  lemma SilentCallbackRuns(op: Op, native: NativeResult)
    requires op.task.InFlight?
    ensures ActAll(op, false, CallbackTrace(false, native)) == Some((CallbackEnd(op, false, native), false))
  {
    ActAllCons(op, false, Take(native), [Action.Release]);
    ActAllOne(op.(task := Releasing, native := Some(native)), false, Action.Release);
  }

  lemma SettleRuns(op: Op, native: NativeResult)
    requires op.task.Settling? && op.native == Some(native)
    ensures ActAll(op, false, [Settle] + [Action.Release]) ==
            Some((op.(task := Released, outcome := TrySet(op.outcome, OutcomeOf(native)),
                      strayRead := op.strayRead || op.releases > 0, releases := op.releases + 1), false))
  {
    ActAllCons(op, false, Settle, [Action.Release]);
    ActAllOne(Act(op, false, Settle).0, false, Action.Release);
  }

  lemma SettlingCallbackRuns(op: Op, native: NativeResult)
    requires op.task.InFlight? && !Running(op.registration)
    ensures ActAll(op, true, CallbackTrace(true, native)) == Some((CallbackEnd(op, true, native), false))
  {
    ActAllCons(op, true, Take(native), [DisposeRegistration] + ([Settle] + [Action.Release]));
    var o1 := op.(task := Taken, native := Some(native), took := true);
    ActAllCons(o1, false, DisposeRegistration, [Settle] + [Action.Release]);
    var o2 := o1.(task := Settling, disposedEarly := op.disposedEarly || !op.published,
                  registration := if op.published then Dispose(op.registration) else op.registration);
    assert Act(o1, false, DisposeRegistration) == (o2, false);
    SettleRuns(o2, native);
  }

  /** `AsyncState<T>` together with the token that it is bound to. */
  class AsyncState {
    var context: Id
    var completion: Outcome
    var registration: Registration
    var published: bool
    const cancelable: bool
    const cancelRequested: bool

    constructor (cancelable: bool, cancelRequested: bool)
      requires cancelRequested ==> cancelable
      ensures context == 0 && completion.Pending? && registration.Unbound? && !published
      ensures this.cancelable == cancelable && this.cancelRequested == cancelRequested
    {
      context, completion, registration, published := 0, Pending, Unbound, false;
      this.cancelable, this.cancelRequested := cancelable, cancelRequested;
    }

    /** The protocol record of this operation; `rest` holds what is not a field of this object. */
    ghost function View(rest: Op): Op
      reads this
    {
      rest.(ctx := context, outcome := completion, registration := registration, published := published,
            cancelable := cancelable, cancelRequested := cancelRequested)
    }

    method TrySetOutcome(outcome: Outcome) returns (ok: bool)
      modifies this`completion
      ensures completion == TrySet(old(completion), outcome)
      ensures ok <==> old(completion).Pending?
    {
      ok := completion.Pending?;
      if ok {
        completion := outcome;
      }
    }

    /** Disposes what the field `CancellationRegistration` holds; a field that is not set holds a default value. */
    method DisposeField()
      requires !Running(registration)
      modifies this`registration
      ensures registration == if published then Dispose(old(registration)) else old(registration)
    {
      if published && registration.Live? {
        registration := Disposed;
      }
    }

    /** Leads where the actions of `BindTrace` lead. `rest` says where the native task stands. */
    method BindCancellation(registry: Registry<AsyncState>, ghost rest: Op)
      requires rest.submitter.Accepted? && registration.Unbound? && !published
      requires cancelRequested ==> cancelable
      modifies this, registry`asyncStates
      ensures context == old(context)
      ensures completion == if cancelRequested && old(completion).Pending? then Canceled else old(completion)
      ensures registry.asyncStates == if cancelRequested then old(registry.asyncStates) - {context}
                                      else old(registry.asyncStates)
      ensures View(BindEnd(old(View(rest)))) == BindEnd(old(View(rest)))
      ensures ActAll(old(View(rest)), old(context in registry.asyncStates), BindTrace(old(View(rest)))) ==
              Some((BindEnd(old(View(rest))), context in registry.asyncStates))
    {
      ghost var op, present := View(rest), context in registry.asyncStates;
      BindTraceRuns(op, present);
      if !cancelable {
        return;
      }
      if cancelRequested {
        // `Register` on a canceled token runs the callback at once
        registry.Unregister(context);
        var _ := TrySetOutcome(Canceled);
        registration := Fired;
        return;
      }
      registration := Live;
      if !completion.Pending? {
        registration := Disposed;
        return;
      }
      // undisturbed, the second check sees the same pending task
      published := true;
    }
  }

  // ---------- Completion ----------

  /** `CompleteAsyncState`: the state is taken from the registry and completed with what the result carries. */
  method CompleteAsyncState(registry: Registry<AsyncState>, context: Id, native: NativeHandle)
    returns (state: Option<AsyncState>)
    requires !native.released
    requires context in registry.asyncStates ==> !Running(registry.asyncStates[context].registration)
    modifies registry`asyncStates
    modifies set s | s in registry.asyncStates.Values
    ensures state == if context in old(registry.asyncStates) then Some(old(registry.asyncStates)[context]) else None
    ensures registry.asyncStates == old(registry.asyncStates) - {context}
    ensures state.Some? && old(state.value.completion).Pending? ==>
              match native.result
              case Value(v) => state.value.completion == Completed(v)
              case Error(code) => state.value.completion == Failed(code)
              case Unconvertible(exception) => state.value.completion == Faulted(exception)
    ensures state.Some? && !old(state.value.completion).Pending? ==>
              state.value.completion == old(state.value.completion)
    ensures state.Some? ==>
              && state.value.registration ==
                 (if old(state.value.published) then Dispose(old(state.value.registration))
                  else old(state.value.registration))
              && state.value.context == old(state.value.context) && state.value.published == old(state.value.published)
    // no other operation is touched
    ensures forall s: AsyncState | s in old(registry.asyncStates.Values) && state != Some(s) :: unchanged(s)
  {
    state := registry.TryTake(context);
    if state.None? {
      return;
    }
    assert state.value in old(registry.asyncStates.Values);
    state.value.DisposeField();
    var error := native.GetError();
    if error.Some? {
      var _ := state.value.TrySetOutcome(Failed(error.value));
      return;
    }
    var value, exception := native.ToValue();
    if value.Some? {
      var _ := state.value.TrySetOutcome(Completed(value.value));
    } else {
      // the conversion threw: the catch block reports the exception
      var _ := state.value.TrySetOutcome(Faulted(exception));
    }
  }

  /**
    `CompleteAsyncCallback`: on every path the native result is released once, after its last use. The state that it
    finds ends where the actions of `CallbackTrace` lead; `rest` says where the submitting thread stands.
    */
  method CompleteAsyncCallback(registry: Registry<AsyncState>, context: Id, native: NativeHandle, ghost rest: Op)
    returns (state: Option<AsyncState>)
    requires !native.released && rest.task.InFlight?
    requires context in registry.asyncStates ==> !Running(registry.asyncStates[context].registration)
    modifies native, registry`asyncStates
    modifies set s | s in registry.asyncStates.Values
    ensures native.released
    ensures state == if context in old(registry.asyncStates) then Some(old(registry.asyncStates)[context]) else None
    ensures registry.asyncStates == old(registry.asyncStates) - {context}
    ensures state.Some? && old(state.value.completion).Pending? ==>
              match native.result
              case Value(v) => state.value.completion == Completed(v)
              case Error(code) => state.value.completion == Failed(code)
              case Unconvertible(exception) => state.value.completion == Faulted(exception)
    ensures state.Some? && !old(state.value.completion).Pending? ==>
              state.value.completion == old(state.value.completion)
    ensures state.Some? ==>
              && var op := old(state.value.View(rest));
              && ActAll(op, true, CallbackTrace(true, native.result)) ==
                 Some((state.value.View(CallbackEnd(op, true, native.result)), false))
    ensures forall s: AsyncState | s in old(registry.asyncStates.Values) && state != Some(s) :: unchanged(s)
  {
    if context in registry.asyncStates {
      SettlingCallbackRuns(registry.asyncStates[context].View(rest), native.result);
    }
    state := CompleteAsyncState(registry, context, native);
    native.Release();
  }

  // ---------- Submission ----------

  datatype SubmitError = NullOperator | BadExecutor | BadPath | BadData | NullCallback

  /**
    The arguments of an asynchronous entry point, as far as its validation looks at them. A null executor, handle 0,
    stands for the default one; `runtimeOk` says that a runtime could be built for it if it had to be.
    */
  datatype SubmitArgs = SubmitArgs(
    operatorIsNull: bool, executor: nat, runtimeOk: bool, pathIsText: bool, dataIsNull: bool, dataLen: nat,
    callbackIsNull: bool)

  /** The first check that fails, in the order of `operator_write_with_options_async_inner`. */
  function FirstError(args: SubmitArgs, table: T.State): Option<SubmitError> {
    if args.operatorIsNull then Some(NullOperator)
    else if args.executor == 0 && table.default.None? && !args.runtimeOk then Some(BadExecutor)
    else if args.executor != 0 && args.executor !in table.registry then Some(BadExecutor)
    else if !args.pathIsText then Some(BadPath)
    else if args.dataLen > 0 && args.dataIsNull then Some(BadData)
    else if args.callbackIsNull then Some(NullCallback)
    else None
  }

  /** The executor can be had: its handle is live, or the default one is set or can be built. Read off the events. */
  predicate ExecutorThere(events: seq<T.Event>, args: SubmitArgs) {
    if args.executor != 0 then T.Live(events, args.executor)
    else args.runtimeOk || exists k | 0 <= k < |events| :: events[k].SetDefault?
  }

  /** The native side takes a submission exactly if nothing is wrong with any of its arguments. */
  lemma {:induction false} AcceptedIff(events: seq<T.Event>, table: T.State, args: SubmitArgs)
    requires T.ReachedBy(events, table)
    ensures FirstError(args, table) == None <==>
            && !args.operatorIsNull
            && ExecutorThere(events, args)
            && args.pathIsText
            && !(args.dataLen > 0 && args.dataIsNull)
            && !args.callbackIsNull
  {
    T.DefaultIffSet(events, table);
    if args.executor != 0 {
      T.ResolvesIffLive(events, table, args.executor);
    }
  }

  /** An executor is refused exactly if its handle is not live, or if there is no default one and none can be built. */
  lemma {:induction false} BadExecutorIff(events: seq<T.Event>, table: T.State, args: SubmitArgs)
    requires T.ReachedBy(events, table)
    ensures FirstError(args, table) == Some(BadExecutor) <==> !args.operatorIsNull && !ExecutorThere(events, args)
  {
    T.DefaultIffSet(events, table);
    if args.executor != 0 {
      T.ResolvesIffLive(events, table, args.executor);
    }
  }

  /** Each of the other errors is that of its own check, and the checks before it have passed. */
  lemma {:induction false} OtherErrorsIff(events: seq<T.Event>, table: T.State, args: SubmitArgs)
    requires T.ReachedBy(events, table)
    ensures var error := FirstError(args, table);
            var earlierOk := !args.operatorIsNull && ExecutorThere(events, args);
            && (error == Some(NullOperator) <==> args.operatorIsNull)
            && (error == Some(BadPath) <==> earlierOk && !args.pathIsText)
            && (error == Some(BadData) <==> earlierOk && args.pathIsText && args.dataLen > 0 && args.dataIsNull)
            && (error == Some(NullCallback) <==>
                  earlierOk && args.pathIsText && !(args.dataLen > 0 && args.dataIsNull) && args.callbackIsNull)
  {
    BadExecutorIff(events, table, args);
    AcceptedIff(events, table, args);
  }

  /** The native side: the executors it knows and the tasks it spawned, by callback context. */
  class NativeSide {
    var table: T.State
    var spawned: seq<Id>

    /** An error means that no task was spawned; acceptance means that exactly one was, for the caller's context. */
    method SubmitAsync(args: SubmitArgs, context: Id) returns (error: Option<SubmitError>)
      modifies this`spawned
      ensures error == FirstError(args, table)
      ensures error.None? <==>
              && !args.operatorIsNull
              && (if args.executor == 0 then table.default.Some? || args.runtimeOk else args.executor in table.registry)
              && args.pathIsText && !(args.dataLen > 0 && args.dataIsNull) && !args.callbackIsNull
      ensures spawned == if error.Some? then old(spawned) else old(spawned) + [context]
    {
      if args.operatorIsNull {
        return Some(NullOperator);
      }
      if args.executor == 0 {
        if table.default.None? && !args.runtimeOk {
          return Some(BadExecutor);
        }
      } else if args.executor !in table.registry {
        return Some(BadExecutor);
      }
      if !args.pathIsText {
        return Some(BadPath);
      }
      if args.dataLen > 0 && args.dataIsNull {
        return Some(BadData);
      }
      if args.callbackIsNull {
        return Some(NullCallback);
      }
      spawned := spawned + [context];
      error := None;
    }
  }

  datatype Submission =
    | Task(state: AsyncState)
    | AlreadyCanceled
    | OptionsThrew
    | Refusal(error: SubmitError)
    | BindThrew(context: Id)     // `Register` on the token threw after the native side had accepted

  /** The `try` block up to the point where nothing can throw any more; the result is the exception it ended with. */
  method Start(nativeSide: NativeSide, args: SubmitArgs, id: Id, optionsThrow: bool, bindThrows: bool)
    returns (failure: Option<Submission>)
    modifies nativeSide`spawned
    ensures failure ==
            if optionsThrow then Some(OptionsThrew)
            else if FirstError(args, nativeSide.table).Some?
            then Some(Refusal(FirstError(args, nativeSide.table).value))
            else if bindThrows then Some(BindThrew(id))
            else None
    ensures nativeSide.spawned == old(nativeSide.spawned) +
            if failure.None? || failure.value.BindThrew? then [id] else []
  {
    if optionsThrow {
      return Some(OptionsThrew);
    }
    var error := nativeSide.SubmitAsync(args, id);
    if error.Some? {
      return Some(Refusal(error.value));
    }
    return if bindThrows then Some(BindThrew(id)) else None;
  }

  /**
    `SubmitAsyncOperation`, with `optionsThrow` for a failing `BuildNativeOptionsHandle` and `bindThrows` for a token
    whose source is disposed. The caller gets a task exactly if the native side got one and the token could be bound,
    and then under the id that the task calls back with; in every other case the registry is as it was. A native task
    without a caller's task is left only behind a failed binding, and its callback will find no state.
    */
  method SubmitAsyncOperation(registry: Registry<AsyncState>, nativeSide: NativeSide, args: SubmitArgs,
                              optionsThrow: bool, cancelable: bool, canceled: bool, bindThrows: bool)
    returns (result: Submission)
    requires canceled ==> cancelable
    requires |registry.asyncStates| <= TWO_64 - 2
    modifies registry, nativeSide`spawned
    ensures result.AlreadyCanceled? <==> canceled
    ensures result.OptionsThrew? <==> !canceled && optionsThrow
    ensures result.Refusal? <==> !canceled && !optionsThrow && FirstError(args, nativeSide.table).Some?
    ensures result.Refusal? ==> Some(result.error) == FirstError(args, nativeSide.table)
    ensures result.Task? <==>
            && !canceled && !optionsThrow && !(cancelable && bindThrows)
            && !args.operatorIsNull
            && (if args.executor == 0 then nativeSide.table.default.Some? || args.runtimeOk
                else args.executor in nativeSide.table.registry)
            && args.pathIsText && !(args.dataLen > 0 && args.dataIsNull) && !args.callbackIsNull
    ensures result.BindThrew? ==> cancelable && bindThrows
    ensures !result.Task? ==> registry.asyncStates == old(registry.asyncStates)
    ensures nativeSide.spawned ==
            match result
            case Task(state) => old(nativeSide.spawned) + [state.context]
            case BindThrew(id) => old(nativeSide.spawned) + [id]
            case _ => old(nativeSide.spawned)
    ensures result.BindThrew? ==> result.context != 0 && result.context !in registry.asyncStates
    ensures result.Task? ==>
              && var id := result.state.context;
              && fresh(result.state) && result.state.completion.Pending?
              && id != 0 && id !in old(registry.asyncStates)
              && registry.asyncStates == old(registry.asyncStates)[id := result.state]
              && (result.state.registration.Live? <==> cancelable)
  {
    if canceled {
      return AlreadyCanceled;
    }
    var state := new AsyncState(cancelable, canceled);
    ghost var rest := NewOp(cancelable).(submitter := Accepted, task := InFlight);
    var id, _ := registry.Register(state);
    state.context := id;
    var failure := Start(nativeSide, args, id, optionsThrow, cancelable && bindThrows);
    if failure.Some? {
      // the catch block
      registry.Unregister(id);
      assert registry.asyncStates == old(registry.asyncStates);
      return failure.value;
    }
    state.BindCancellation(registry, rest);
    return Task(state);
  }
}
