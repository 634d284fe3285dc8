/**
  How long a native task of the .NET binding lives: until it has called back, or until its executor is gone.

  The default executor is never gone. An executor with a handle is gone once the handle is freed and no running call
  holds a clone of it; spawned tasks do not hold one.
  */
module TaskLifetime {
  import opened Common
  import opened AsyncProtocol
  import T = ExecutorTable

  function TableEvents(e: Event): seq<T.Event> {
    if e.Table? then [e.event] else []
  }

  /** What a run does to the executors. */
  function TableRun(run: seq<Event>): seq<T.Event> {
    if run == [] then [] else TableEvents(run[0]) + TableRun(run[1..])
  }

  lemma TableStep(before: seq<T.Event>, s: State, e: Event)
    requires T.ReachedBy(before, s.table) && Enabled(s, e)
    ensures T.ReachedBy(before + TableEvents(e), Apply(s, e).table)
  {
    if e.Table? {
      T.Extend(before, s.table, e.event);
    } else {
      assert before + [] == before;
    }
  }

  lemma {:induction false} TableReached(before: seq<T.Event>, s: State, run: seq<Event>)
    requires T.ReachedBy(before, s.table) && Exec(s, run).Some?
    ensures T.ReachedBy(before + TableRun(run), Exec(s, run).value.table)
    decreases |run|
  {
    if run == [] {
      assert before + [] == before;
    } else {
      TableStep(before, s, run[0]);
      TableReached(before + TableEvents(run[0]), Apply(s, run[0]), run[1..]);
      Associative(before, TableEvents(run[0]), TableRun(run[1..]));
    }
  }

  /** The executor is the default one, or its handle is not freed; read off the events. */
  ghost predicate InUse(table: T.State, events: seq<T.Event>, x: T.Executor)
    requires T.Settled(table, x)
  {
    table.roles[x].Chosen? || T.Live(events, table.roles[x].id)
  }

  lemma InUseIff(run: seq<Event>, s: State, x: T.Executor)
    requires ReachedBy(run, s) && T.Settled(s.table, x)
    ensures InUse(s.table, TableRun(run), x) <==> !T.Freed(s.table, x)
  {
    RunKeepsInv(INITIAL, run);
    TableReached([], INITIAL, run);
    assert [] + TableRun(run) == TableRun(run);
    if s.table.roles[x].Listed? {
      assert T.RoleOk(s.table, x);
      T.ResolvesIffLive(TableRun(run), s.table, s.table.roles[x].id);
    }
  }

  lemma SpawnedIsSettled(run: seq<Event>, s: State, i: nat)
    requires ReachedBy(run, s) && i < |s.ops| && !s.ops[i].task.NotSpawned?
    ensures s.ops[i].executor.Some? && T.Settled(s.table, s.ops[i].executor.value)
  {
    RunKeepsInv(INITIAL, run);
    assert ExecutorOk(s.table, s.ops[i]) && OpInv(s.ops[i], s.ops[i].ctx in s.registry);
  }

  /**
    A running task can be dropped exactly if its executor has a handle, the handle was freed, and no call holds a clone.
    */
  lemma {:induction false} DropPossibleIff(run: seq<Event>, s: State, i: nat)
    requires ReachedBy(run, s) && i < |s.ops| && s.ops[i].task.InFlight?
    ensures s.ops[i].executor.Some? && T.Settled(s.table, s.ops[i].executor.value)
    ensures var x := s.ops[i].executor.value;
            Enabled(s, Do(i, Drop)) <==> !InUse(s.table, TableRun(run), x) && !T.HeldBySomeone(s.table, x)
  {
    RunKeepsInv(INITIAL, run);
    SpawnedIsSettled(run, s, i);
    InUseIff(run, s, s.ops[i].executor.value);
    T.AliveIff(s.table, s.ops[i].executor.value);
  }

  /**
    An accepted operation that has come to rest has called back exactly once, unless its task was dropped. On the
    default executor, and on an executor whose handle is not freed, no task is dropped: there the callback comes
    exactly once.
    */
  lemma {:induction false} ExactlyOnceAtRest(run: seq<Event>, s: State, i: nat)
    requires ReachedBy(run, s) && i < |s.ops| && !s.ops[i].task.NotSpawned? && Quiescent(s.ops[i])
    ensures s.ops[i].executor.Some? && T.Settled(s.table, s.ops[i].executor.value)
    ensures Callbacks(run, i) == if s.ops[i].task.Dropped? then 0 else 1
    ensures InUse(s.table, TableRun(run), s.ops[i].executor.value) ==> Callbacks(run, i) == 1
  {
    RunKeepsInv(INITIAL, run);
    SpawnedIsSettled(run, s, i);
    CallbackAtMostOnce(run, s, i);
    assert ExecutorOk(s.table, s.ops[i]) && OpInv(s.ops[i], s.ops[i].ctx in s.registry);
    InUseIff(run, s, s.ops[i].executor.value);
    if Due(s.ops[i]).Some? {
      DueIsPossible(s.ops[i]);
      assert false;
    }
  }

  // ---------- What can still happen ----------

  /** The run does not free the handle of the executor, if it has one. */
  ghost predicate NoFree(run: seq<Event>, table: T.State, x: T.Executor)
    requires T.Settled(table, x)
  {
    table.roles[x].Listed? ==> forall k | 0 <= k < |run| :: run[k] != Table(T.Free(table.roles[x].id))
  }

  lemma {:induction false} StepKeepsInUse(s: State, e: Event, i: nat)
    requires Inv(s) && Enabled(s, e) && i < |s.ops| && s.ops[i].executor.Some?
    requires T.Settled(s.table, s.ops[i].executor.value) && !T.Freed(s.table, s.ops[i].executor.value)
    requires NoFree([e], s.table, s.ops[i].executor.value)
    ensures i < |Apply(s, e).ops| && Apply(s, e).ops[i].executor == s.ops[i].executor
    ensures var x, table' := s.ops[i].executor.value, Apply(s, e).table;
            T.Settled(table', x) && table'.roles[x] == s.table.roles[x] && !T.Freed(table', x)
  {
    var x := s.ops[i].executor.value;
    assert OpInv(s.ops[i], s.ops[i].ctx in s.registry);
    if e.Table? {
      T.StepGrows(s.table, e.event);
      assert T.RoleOk(s.table, x);
      assert [e][0] == e;
      if s.table.roles[x].Listed? {
        T.RegistryStep(s.table, e.event, s.table.roles[x].id);
      }
    } else if e.Do? && e.i == i {
      ActKeepsExecutor(s.ops[i], s.ops[i].ctx in s.registry, e.action);
    }
  }

  /** Unless its handle is freed, an executor keeps its tasks in every continuation. */
  lemma {:induction false} NoFreeNoDrop(s: State, run: seq<Event>, i: nat)
    requires Inv(s) && Exec(s, run).Some? && i < |s.ops| && s.ops[i].executor.Some?
    requires T.Settled(s.table, s.ops[i].executor.value) && !T.Freed(s.table, s.ops[i].executor.value)
    requires NoFree(run, s.table, s.ops[i].executor.value)
    ensures i < |Exec(s, run).value.ops| && !Exec(s, run).value.ops[i].task.Dropped?
    decreases |run|
  {
    if run == [] {
      assert ExecutorOk(s.table, s.ops[i]);
    } else {
      var x := s.ops[i].executor.value;
      assert forall k | 0 <= k < |run[1..]| :: run[1..][k] == run[k + 1];
      assert run[0] in run;
      StepKeepsInUse(s, run[0], i);
      StepKeepsInv(s, run[0]);
      assert NoFree(run[1..], Apply(s, run[0]).table, x);
      NoFreeNoDrop(Apply(s, run[0]), run[1..], i);
    }
  }

  ghost function Holders(table: T.State, x: T.Executor): set<nat> {
    set t | t in table.held && table.held[t] == x
  }

  predicate OnlyReleases(run: seq<Event>) {
    forall k | 0 <= k < |run| :: run[k].Table? && run[k].event.Release?
  }

  /** All calls that hold a clone come to their end. */
  lemma {:induction false} ReleaseAll(s: State, x: T.Executor) returns (run: seq<Event>, s': State)
    ensures Exec(s, run) == Some(s') && OnlyReleases(run)
    ensures s' == s.(table := s.table.(held := s'.table.held)) && !T.HeldBySomeone(s'.table, x)
    decreases Holders(s.table, x)
  {
    if t :| t in s.table.held && s.table.held[t] == x {
      var s1 := Apply(s, Table(T.Release(t)));
      assert t in Holders(s.table, x) && t !in Holders(s1.table, x);
      var rest;
      rest, s' := ReleaseAll(s1, x);
      run := [Table(T.Release(t))] + rest;
      assert run[1..] == rest;
    } else {
      run, s' := [], s;
    }
  }

  ghost predicate DropsWithoutFree(s: State, run: seq<Event>, i: nat)
    requires i < |s.ops| && s.ops[i].executor.Some? && T.Settled(s.table, s.ops[i].executor.value)
  {
    && Exec(s, run).Some? && i < |Exec(s, run).value.ops| && Exec(s, run).value.ops[i].task.Dropped?
    && NoFree(run, s.table, s.ops[i].executor.value)
  }

  lemma FreedCanBeDropped(s: State, i: nat) returns (run: seq<Event>)
    requires Inv(s) && i < |s.ops| && s.ops[i].task.InFlight? && s.ops[i].executor.Some?
    requires T.Settled(s.table, s.ops[i].executor.value) && T.Freed(s.table, s.ops[i].executor.value)
    ensures DropsWithoutFree(s, run, i)
  {
    var x := s.ops[i].executor.value;
    var releases, s' := ReleaseAll(s, x);
    RunKeepsInv(s, releases);
    T.AliveIff(s'.table, x);
    ExecConcat(s, releases, [Do(i, Drop)]);
    run := releases + [Do(i, Drop)];
    assert Exec(s', [Do(i, Drop)]) == Exec(Apply(s', Do(i, Drop)), []);
  }

  /**
    From any state on, a running task can be lost without a further `executor_free` exactly if the handle of its
    executor is freed already. So an operation that is accepted on the default executor is never lost, and one on a
    handle is safe exactly as long as the handle is not freed.
    */
  lemma {:induction false} CanBeDroppedIff(s: State, i: nat)
    requires Inv(s) && i < |s.ops| && s.ops[i].task.InFlight?
    ensures s.ops[i].executor.Some? && T.Settled(s.table, s.ops[i].executor.value)
    ensures (exists run :: DropsWithoutFree(s, run, i)) <==> T.Freed(s.table, s.ops[i].executor.value)
  {
    assert ExecutorOk(s.table, s.ops[i]) && OpInv(s.ops[i], s.ops[i].ctx in s.registry);
    if T.Freed(s.table, s.ops[i].executor.value) {
      var run := FreedCanBeDropped(s, i);
    } else {
      forall run ensures !DropsWithoutFree(s, run, i) {
        if DropsWithoutFree(s, run, i) {
          NoFreeNoDrop(s, run, i);
        }
      }
    }
  }

  // ---------- A task that is lost ----------

  /** Operation 0 holds a clone of the executor with handle 1; it has given it back; and the handle is freed. */
  const RESOLVED: T.State :=
    T.State(None, 2, map[1 := 0], map[], map[0 := 0], [T.Listed(1)], map[1 := 0], [T.Handle(1, 0), T.Resolved(1, 0)])
  const RETURNED: T.State := RESOLVED.(held := map[])
  const FREED: T.State := RETURNED.(registry := map[])

  lemma ResolvedIsReached() returns (events: seq<T.Event>)
    ensures T.ReachedBy(events, RESOLVED)
  {
    var t1 := T.Apply(T.INITIAL, T.Create(0, 1, true));
    var t2 := T.Apply(t1, T.FetchAdd(0));
    var t3 := T.Apply(t2, T.Insert(0, 1));
    T.Extend([], T.INITIAL, T.Create(0, 1, true));
    events := [] + [T.Create(0, 1, true)];
    T.Extend(events, t1, T.FetchAdd(0));
    events := events + [T.FetchAdd(0)];
    T.Extend(events, t2, T.Insert(0, 1));
    events := events + [T.Insert(0, 1)];
    T.Extend(events, t3, T.Resolve(0, 1));
    events := events + [T.Resolve(0, 1)];
    assert t3.calls == map[] && t3.held == map[];
    assert T.Apply(t3, T.Resolve(0, 1)) == RESOLVED;
  }

  /** The caller has the task, which is on its way. */
  const SUBMITTED: Op := ReservedOp(false).(submitter := Returned, task := InFlight, executor := Some(0))

  lemma SubmittedIsReached() returns (run: seq<Event>)
    ensures ReachedBy(run, Alone(SUBMITTED, true, RESOLVED))
  {
    var events := ResolvedIsReached();
    run := ReservedIsReached(events, RESOLVED, false);
    Play(run, ReservedOp(false), false, RESOLVED, TryAdd);
    run := run + [Do(0, TryAdd)];
    var o1 := ReservedOp(false).(submitter := Registered);
    Play(run, o1, true, RESOLVED, Accept(0));
    run := run + [Do(0, Accept(0))];
    Play(run, o1.(submitter := Accepted, task := InFlight, executor := Some(0)), true, RESOLVED, SkipBind);
    run := run + [Do(0, SkipBind)];
  }

  lemma LostIsReached() returns (run: seq<Event>)
    ensures ReachedBy(run, Alone(SUBMITTED.(task := Dropped), true, FREED))
  {
    run := SubmittedIsReached();
    var s0, s1, s2 := Alone(SUBMITTED, true, RESOLVED), Alone(SUBMITTED, true, RETURNED), Alone(SUBMITTED, true, FREED);
    Extend(run, s0, Table(T.Release(0)));
    run := run + [Table(T.Release(0))];
    assert Apply(s0, Table(T.Release(0))) == s1;
    Extend(run, s1, Table(T.Free(1)));
    run := run + [Table(T.Free(1))];
    assert Apply(s1, Table(T.Free(1))) == s2;
    Play(run, SUBMITTED, true, FREED, Drop);
    run := run + [Do(0, Drop)];
  }

  /** The handle is freed while the task runs: the runtime goes, and the caller's task pends in every continuation. */
  lemma FreedExecutorLosesTask() returns (run: seq<Event>, s: State)
    ensures ReachedBy(run, s) && |s.ops| == 1
    ensures s.ops[0].submitter.Returned? && s.ops[0].task.Dropped? && s.ops[0].outcome.Pending? && !s.ops[0].cancelable
    ensures forall more: seq<Event> | Exec(s, more).Some? ::
              |Exec(s, more).value.ops| > 0 && Exec(s, more).value.ops[0].outcome.Pending?
  {
    run := LostIsReached();
    s := Alone(SUBMITTED.(task := Dropped), true, FREED);
    RunKeepsInv(INITIAL, run);
    forall more: seq<Event> | Exec(s, more).Some?
      ensures |Exec(s, more).value.ops| > 0 && Exec(s, more).value.ops[0].outcome.Pending?
    {
      DroppedTaskPendsForever(s, more, 0);
    }
  }
}
