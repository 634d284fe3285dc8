/**
  The executors of the .NET binding's native side: a set-once default (`OnceLock`), an atomic id counter
  that starts at 1, and a locked map from handles to executors. Any number of threads call in at once; each
  action is one atomic step. Handle 0 is the null pointer. Ids do not wrap around.
  */
module ExecutorTable {
  import opened Common

  /** An executor object; two objects are never equal. */
  type Executor = nat

  /** Where a thread stands inside a call. */
  datatype Phase =
    | Looking                              // `default_executor`: first `get` is next
    | Building                             // about to create a runtime
    | Setting(made: Executor)              // `set` is next
    | Rereading(made: Executor)            // `set` lost the race, second `get` is next
    | Numbering(made: Executor)            // `executor_create`: `fetch_add` is next
    | Inserting(made: Executor, id: nat)   // about to insert under the lock

  datatype Answer =
    | Default(executor: Executor)
    | Fallback(executor: Executor)         // the last line of `default_executor`
    | Handle(id: nat, executor: Executor)
    | Resolved(id: nat, executor: Executor)
    | Invalid(id: nat)
    | Failed

  /** What became of an executor object: in the hands of a call, the default, or listed under an id. */
  datatype Role = Making(thread: nat) | Chosen | Listed(id: nat)

  /** `roles`, `issued` and `log` are history. Objects are numbered in the order in which they were made. */
  datatype State = State(
    default: Option<Executor>,
    nextId: nat,
    registry: map<nat, Executor>,
    calls: map<nat, Phase>,
    held: map<nat, Executor>,              // clones in the hands of threads
    roles: seq<Role>,
    issued: map<nat, Executor>,            // the executor that each id was drawn for
    log: seq<Answer>)

  const INITIAL: State := State(None, 1, map[], map[], map[], [], map[], [])

  datatype Event =
    | AskDefault(thread: nat)
    | FirstGet(thread: nat)
    | BuildDefault(thread: nat, ok: bool)
    | SetDefault(thread: nat)
    | SecondGet(thread: nat)
    | Create(thread: nat, threads: nat, ok: bool)
    | FetchAdd(thread: nat)
    | Insert(thread: nat, id: nat)
    | Resolve(thread: nat, id: nat)
    | Free(id: nat)
    | Release(thread: nat)

  predicate Idle(s: State, t: nat) {
    t !in s.calls && t !in s.held
  }

  predicate Enabled(s: State, e: Event) {
    match e
    case AskDefault(t) => Idle(s, t)
    case FirstGet(t) => t in s.calls && s.calls[t].Looking?
    case BuildDefault(t, _) => t in s.calls && s.calls[t].Building?
    case SetDefault(t) => t in s.calls && s.calls[t].Setting?
    case SecondGet(t) => t in s.calls && s.calls[t].Rereading?
    case Create(t, _, _) => Idle(s, t)
    case FetchAdd(t) => t in s.calls && s.calls[t].Numbering?
    case Insert(t, id) => t in s.calls && s.calls[t].Inserting? && s.calls[t].id == id
    case Resolve(t, id) => Idle(s, t) && id != 0
    case Free(_) => true
    case Release(t) => t in s.held
  }

  /** The call of `t` ends with an answer; `clone` is the executor that the caller now holds, if any. */
  function Finish(s: State, t: nat, a: Answer, clone: Option<Executor>): State {
    s.(calls := s.calls - {t}, log := s.log + [a],
       held := if clone.Some? then s.held[t := clone.value] else s.held)
  }

  function Mark(roles: seq<Role>, o: Executor, r: Role): seq<Role> {
    if o < |roles| then roles[o := r] else roles
  }

  function Apply(s: State, e: Event): State
    requires Enabled(s, e)
  {
    match e
    case AskDefault(t) => s.(calls := s.calls[t := Looking])
    case FirstGet(t) =>
      if s.default.Some? then Finish(s, t, Default(s.default.value), s.default)
      else s.(calls := s.calls[t := Building])
    case BuildDefault(t, ok) =>
      if ok then s.(calls := s.calls[t := Setting(|s.roles|)], roles := s.roles + [Making(t)])
      else Finish(s, t, Failed, None)
    case SetDefault(t) =>
      var made := s.calls[t].made;
      if s.default.None? then
        Finish(s.(default := Some(made), roles := Mark(s.roles, made, Chosen)), t, Default(made), Some(made))
      else s.(calls := s.calls[t := Rereading(made)])
    case SecondGet(t) =>
      if s.default.Some? then Finish(s, t, Default(s.default.value), s.default)
      else Finish(s, t, Fallback(s.calls[t].made), Some(s.calls[t].made))
    case Create(t, threads, ok) =>
      if threads == 0 || !ok then Finish(s, t, Failed, None)
      else s.(calls := s.calls[t := Numbering(|s.roles|)], roles := s.roles + [Making(t)])
    case FetchAdd(t) =>
      var made := s.calls[t].made;
      s.(calls := s.calls[t := Inserting(made, s.nextId)], nextId := s.nextId + 1, issued := s.issued[s.nextId := made])
    case Insert(t, id) =>
      var made := s.calls[t].made;
      var s' := s.(registry := s.registry[id := made], roles := Mark(s.roles, made, Listed(id)));
      Finish(s', t, Handle(id, made), None)
    case Resolve(t, id) =>
      if id in s.registry then Finish(s, t, Resolved(id, s.registry[id]), Some(s.registry[id]))
      else Finish(s, t, Invalid(id), None)
    case Free(id) => if id == 0 then s else s.(registry := s.registry - {id})
    case Release(t) => s.(held := s.held - {t})
  }

  function Exec(s: State, run: seq<Event>): Option<State> {
    if run == [] then Some(s)
    else
      var front := Exec(s, run[..|run| - 1]);
      if front.Some? && Enabled(front.value, run[|run| - 1]) then Some(Apply(front.value, run[|run| - 1]))
      else None
  }

  predicate ReachedBy(run: seq<Event>, s: State) {
    Exec(INITIAL, run) == Some(s)
  }

  lemma Extend(run: seq<Event>, s: State, e: Event)
    requires ReachedBy(run, s) && Enabled(s, e)
    ensures ReachedBy(run + [e], Apply(s, e))
  {
    assert (run + [e])[..|run|] == run;
  }

  // ---------- The invariant ----------

  ghost predicate HasRole(s: State, o: Executor, r: Role) {
    o < |s.roles| && s.roles[o] == r
  }

  /** Every table entry carries the role that belongs to it, so an object is in one place at most. */
  ghost predicate TableInv(s: State) {
    && (forall id | id in s.registry ::
          HasRole(s, s.registry[id], Listed(id)) && id in s.issued && s.issued[id] == s.registry[id])
    && (s.default.Some? ==> HasRole(s, s.default.value, Chosen))
    && (forall id | id in s.issued :: 1 <= id < s.nextId)
    && s.nextId >= 1
  }

  /** An object in the making belongs to the one call that made it. */
  ghost predicate CallInv(s: State, t: nat)
    requires t in s.calls
  {
    var p := s.calls[t];
    && (p.Setting? || p.Rereading? || p.Numbering? || p.Inserting? ==> HasRole(s, p.made, Making(t)))
    && (p.Rereading? ==> s.default.Some?)
    && (p.Inserting? ==> p.id in s.issued && s.issued[p.id] == p.made)
  }

  ghost predicate CallsInv(s: State) {
    forall t | t in s.calls :: CallInv(s, t)
  }

  /** Every answer agrees with the tables. */
  ghost predicate Agrees(s: State, a: Answer) {
    match a
    case Default(e) => s.default == Some(e)
    case Fallback(_) => false
    case Handle(id, e) => id in s.issued && s.issued[id] == e
    case Resolved(id, e) => id in s.issued && s.issued[id] == e
    case _ => true
  }

  ghost predicate LogInv(s: State) {
    forall k | 0 <= k < |s.log| :: Agrees(s, s.log[k])
  }

  /** The object is made and in its place. */
  ghost predicate Settled(s: State, o: Executor) {
    o < |s.roles| && !s.roles[o].Making?
  }

  /** The default is the chosen object, and a listed object is the one its id was drawn for. */
  ghost predicate RolesInv(s: State) {
    forall o | 0 <= o < |s.roles| :: RoleOk(s, o)
  }

  ghost predicate RoleOk(s: State, o: Executor)
    requires o < |s.roles|
  {
    && (s.roles[o].Chosen? ==> s.default == Some(o))
    && (s.roles[o].Listed? ==> s.roles[o].id in s.issued && s.issued[s.roles[o].id] == o)
  }

  ghost predicate HeldInv(s: State) {
    forall t | t in s.held :: Settled(s, s.held[t])
  }

  ghost predicate Inv(s: State) {
    TableInv(s) && CallsInv(s) && LogInv(s) && RolesInv(s) && HeldInv(s)
  }

  /** Roles of finished objects do not change, and ids stay with their executors. */
  ghost predicate Grows(s: State, s': State) {
    && |s.roles| <= |s'.roles|
    && (forall o | 0 <= o < |s.roles| && !s.roles[o].Making? :: s'.roles[o] == s.roles[o])
    && (forall id | id in s.issued :: id in s'.issued && s'.issued[id] == s.issued[id])
    && (s.default.Some? ==> s'.default == s.default)
  }

  lemma StepGrows(s: State, e: Event)
    requires TableInv(s) && CallsInv(s) && Enabled(s, e)
    ensures Grows(s, Apply(s, e))
  {
    match e
    case SetDefault(t) => assert CallInv(s, t);
    case Insert(t, _) => assert CallInv(s, t);
    case _ =>
  }

  lemma StepKeepsTables(s: State, e: Event)
    requires TableInv(s) && CallsInv(s) && Enabled(s, e)
    ensures TableInv(Apply(s, e))
  {
    StepGrows(s, e);
    match e
    case SetDefault(t) => assert CallInv(s, t);
    case Insert(t, _) => assert CallInv(s, t);
    case _ =>
  }

  /** A step changes the call of its own thread and the objects in the making of its own thread only. */
  lemma OtherCallKept(s: State, e: Event, u: nat)
    requires TableInv(s) && CallsInv(s) && Enabled(s, e)
    requires u in s.calls && (e.Free? || e.thread != u)
    ensures u in Apply(s, e).calls && CallInv(Apply(s, e), u)
  {
    StepGrows(s, e);
    assert CallInv(s, u);
    match e
    case SetDefault(t) => assert CallInv(s, t);
    case Insert(t, _) => assert CallInv(s, t);
    case _ =>
  }

  lemma OwnCallKept(s: State, e: Event)
    requires TableInv(s) && CallsInv(s) && Enabled(s, e) && !e.Free? && e.thread in Apply(s, e).calls
    ensures CallInv(Apply(s, e), e.thread)
  {
    if e.thread in s.calls {
      assert CallInv(s, e.thread);
    }
  }

  lemma StepKeepsCalls(s: State, e: Event)
    requires TableInv(s) && CallsInv(s) && Enabled(s, e)
    ensures CallsInv(Apply(s, e))
  {
    var s' := Apply(s, e);
    forall u | u in s'.calls ensures CallInv(s', u) {
      if !e.Free? && e.thread == u {
        OwnCallKept(s, e);
      } else {
        OtherCallKept(s, e, u);
      }
    }
  }

  lemma StepKeepsLog(s: State, e: Event)
    requires Inv(s) && Enabled(s, e)
    ensures LogInv(Apply(s, e))
  {
    var s' := Apply(s, e);
    forall k | 0 <= k < |s'.log| ensures Agrees(s', s'.log[k]) {
      if k < |s.log| {
        assert Agrees(s, s.log[k]);
      } else if e.SecondGet? || e.Insert? {
        assert CallInv(s, e.thread);
      }
    }
  }

  lemma StepKeepsRoles(s: State, e: Event)
    requires TableInv(s) && CallsInv(s) && RolesInv(s) && Enabled(s, e)
    ensures RolesInv(Apply(s, e))
  {
    var s' := Apply(s, e);
    StepGrows(s, e);
    if e.SetDefault? || e.Insert? {
      assert CallInv(s, e.thread);
    }
    forall o | 0 <= o < |s'.roles| ensures RoleOk(s', o) {
      if o < |s.roles| {
        assert RoleOk(s, o);
      }
    }
  }

  lemma StepKeepsHeld(s: State, e: Event)
    requires TableInv(s) && CallsInv(s) && HeldInv(s) && Enabled(s, e)
    ensures HeldInv(Apply(s, e))
  {
    var s' := Apply(s, e);
    StepGrows(s, e);
    if e.SetDefault? || e.SecondGet? {
      assert CallInv(s, e.thread);
    }
    forall t | t in s'.held ensures Settled(s', s'.held[t]) {
      if t in s.held && s'.held[t] == s.held[t] {
        assert Settled(s, s.held[t]);
      }
    }
  }

  lemma StepKeepsInv(s: State, e: Event)
    requires Inv(s) && Enabled(s, e)
    ensures Inv(Apply(s, e))
  {
    StepKeepsTables(s, e);
    StepKeepsCalls(s, e);
    StepKeepsLog(s, e);
    StepKeepsRoles(s, e);
    StepKeepsHeld(s, e);
  }

  lemma {:induction false} RunKeepsInv(run: seq<Event>)
    requires Exec(INITIAL, run).Some?
    ensures Inv(Exec(INITIAL, run).value)
  {
    if run != [] {
      var front, last := run[..|run| - 1], run[|run| - 1];
      RunKeepsInv(front);
      StepKeepsInv(Exec(INITIAL, front).value, last);
    }
  }

  // ---------- Main results ----------

  /** However many threads race, every default lookup gets the same executor, and the last fallback is never reached. */
  lemma {:induction false} OneDefault(run: seq<Event>, s: State, j: nat, k: nat)
    requires ReachedBy(run, s) && j < |s.log| && k < |s.log|
    ensures s.log[j].Default? && s.log[k].Default? ==> s.log[k].executor == s.log[j].executor
    ensures !s.log[k].Fallback?
  {
    RunKeepsInv(run);
    assert Agrees(s, s.log[j]) && Agrees(s, s.log[k]);
  }

  /** The handle `id` was inserted and not freed since; read off the events alone. */
  predicate Live(run: seq<Event>, id: nat) {
    if run == [] then false
    else
      var last := run[|run| - 1];
      if last.Insert? && last.id == id then true
      else if last.Free? && last.id == id then false
      else Live(run[..|run| - 1], id)
  }

  /** A handle resolves exactly while it is live, and always to the executor it was created for. */
  lemma {:induction false} ResolvesIffLive(run: seq<Event>, s: State, id: nat)
    requires ReachedBy(run, s) && id != 0
    ensures id in s.registry <==> Live(run, id)
    ensures id in s.registry ==> id in s.issued && s.registry[id] == s.issued[id]
  {
    RunKeepsInv(run);
    if run != [] {
      var front := run[..|run| - 1];
      var s0 := Exec(INITIAL, front).value;
      ResolvesIffLive(front, s0, id);
      RegistryStep(s0, run[|run| - 1], id);
    }
  }

  lemma RegistryStep(s: State, e: Event, id: nat)
    requires Enabled(s, e) && id != 0
    ensures id in Apply(s, e).registry <==>
            (e.Insert? && e.id == id) || (id in s.registry && !(e.Free? && e.id == id))
  {
    match e
    case Insert(_, _) =>
    case Free(_) =>
    case _ =>
  }

  /** A lookup by handle is answered with the executor that the handle was created for while it is live, or refused. */
  lemma {:induction false} ResolveAnswersIff(run: seq<Event>, s: State, t: nat, id: nat)
    requires ReachedBy(run, s) && Idle(s, t) && id != 0
    ensures var s' := Apply(s, Resolve(t, id));
            if Live(run, id) then
              && id in s.issued
              && s'.log == s.log + [Resolved(id, s.issued[id])]
              && s'.held == s.held[t := s.issued[id]]
            else
              s'.log == s.log + [Invalid(id)] && s'.held == s.held
    ensures var s' := Apply(s, Resolve(t, id));
            s'.registry == s.registry && s'.default == s.default && s'.calls == s.calls && s'.nextId == s.nextId
  {
    ResolvesIffLive(run, s, id);
    assert s.calls - {t} == s.calls;
  }

  /** A creation fails at once exactly if it asks for no thread or no runtime could be built. */
  lemma {:induction false} CreateFailsIff(s: State, t: nat, threads: nat, ok: bool)
    requires Idle(s, t)
    ensures var s' := Apply(s, Create(t, threads, ok));
            if threads == 0 || !ok then
              s'.log == s.log + [Failed] && t !in s'.calls
            else
              s'.log == s.log && t in s'.calls && s'.calls[t] == Numbering(|s.roles|) && |s'.roles| == |s.roles| + 1
    ensures var s' := Apply(s, Create(t, threads, ok));
            s'.registry == s.registry && s'.held == s.held && s'.default == s.default
  {
    assert s.calls - {t} == s.calls;
  }

  /** A creation that did not fail ends with a handle that was drawn for its executor and is live from then on. */
  lemma {:induction false} CreationEndsWithHandle(run: seq<Event>, s: State, t: nat, id: nat)
    requires ReachedBy(run, s) && Enabled(s, Insert(t, id))
    ensures var s' := Apply(s, Insert(t, id));
            && id != 0 && id in s.issued
            && s'.log == s.log + [Handle(id, s.issued[id])]
            && s'.registry == s.registry[id := s.issued[id]]
            && ReachedBy(run + [Insert(t, id)], s') && Live(run + [Insert(t, id)], id)
  {
    RunKeepsInv(run);
    assert CallInv(s, t);
    Extend(run, s, Insert(t, id));
  }

  /** The default is set exactly if some lookup has reached its `set`. */
  lemma {:induction false} DefaultIffSet(run: seq<Event>, s: State)
    requires ReachedBy(run, s)
    ensures s.default.Some? <==> exists k | 0 <= k < |run| :: run[k].SetDefault?
  {
    if run != [] {
      var front, last := run[..|run| - 1], run[|run| - 1];
      var s0 := Exec(INITIAL, front).value;
      DefaultIffSet(front, s0);
      RunKeepsInv(front);
      StepGrows(s0, last);
      assert forall k | 0 <= k < |front| :: run[k] == front[k];
      assert s.default.Some? && s0.default.None? ==> last.SetDefault?;
    }
  }

  /** The call of `t` has ended with the default executor `x`, and `t` holds a clone of it. */
  predicate Answered(s: State, s': State, t: nat, x: Executor) {
    s'.log == s.log + [Default(x)] && s'.held == s.held[t := x] && t !in s'.calls
  }

  /**
    How a lookup of the default goes: it is answered at once if the default is set; otherwise it builds a runtime, which
    may fail, and ends with its own executor if it is the first to set one, or with the one that was set before.
    */
  lemma {:induction false} DefaultLookupAnswers(run: seq<Event>, s: State, e: Event)
    requires ReachedBy(run, s) && Enabled(s, e)
    requires e.FirstGet? || e.BuildDefault? || e.SetDefault? || e.SecondGet?
    ensures var s' := Apply(s, e);
            match e
            case FirstGet(t) =>
              if s.default.Some? then Answered(s, s', t, s.default.value)
              else s'.log == s.log && s'.held == s.held && s'.calls == s.calls[t := Building]
            case BuildDefault(t, ok) =>
              if ok then s'.log == s.log && s'.held == s.held && s'.calls == s.calls[t := Setting(|s.roles|)]
              else s'.log == s.log + [Failed] && s'.held == s.held && t !in s'.calls
            case SetDefault(t) =>
              if s.default.None? then s'.default == Some(s.calls[t].made) && Answered(s, s', t, s.calls[t].made)
              else s'.default == s.default && s'.log == s.log && t in s'.calls && s'.calls[t].Rereading?
            case SecondGet(t) => s.default.Some? && Answered(s, s', t, s.default.value)
            case _ => true
  {
    RunKeepsInv(run);
    assert CallInv(s, e.thread);
  }

  /** What a resolved handle gave and what its creation gave are the same executor. */
  lemma {:induction false} ResolvedIsOwn(run: seq<Event>, s: State, j: nat, k: nat)
    requires ReachedBy(run, s) && j < |s.log| && k < |s.log|
    requires s.log[j].Handle? && (s.log[k].Resolved? || s.log[k].Handle?) && s.log[j].id == s.log[k].id
    ensures s.log[j].executor == s.log[k].executor
  {
    RunKeepsInv(run);
    assert Agrees(s, s.log[j]) && Agrees(s, s.log[k]);
  }

  /** A thread that was answered with an executor by a lookup holds a clone of just that executor. */
  lemma {:induction false} LookupHandsOutItsAnswer(s: State, e: Event)
    requires Enabled(s, e) && |Apply(s, e).log| > |s.log|
    ensures var s' := Apply(s, e);
            && s'.log == s.log + [s'.log[|s.log|]]
            && var a := s'.log[|s.log|];
            && (a.Default? || a.Fallback? || a.Resolved? ==>
                  !e.Free? && e.thread in s'.held && s'.held[e.thread] == a.executor)
            && (a.Handle? ==> a.id in s'.registry && s'.registry[a.id] == a.executor)
            && (a.Failed? || a.Invalid? ==> s'.held == s.held && s'.registry == s.registry)
  {
  }

  predicate Makes(p: Phase, o: Executor) {
    (p.Setting? || p.Rereading? || p.Numbering? || p.Inserting?) && p.made == o
  }

  /** Someone still refers to the executor; its runtime is shut down when nobody does. */
  ghost predicate Alive(s: State, o: Executor) {
    || s.default == Some(o)
    || (exists id :: id in s.registry && s.registry[id] == o)
    || (exists t :: t in s.held && s.held[t] == o)
    || (exists t :: t in s.calls && Makes(s.calls[t], o))
  }

  ghost predicate HeldBySomeone(s: State, o: Executor) {
    exists t :: t in s.held && s.held[t] == o
  }

  /** A listed object whose id is not in the table any more. */
  ghost predicate Freed(s: State, o: Executor) {
    o < |s.roles| && s.roles[o].Listed? && s.roles[o].id !in s.registry
  }

  /** An executor lives exactly as long as it is the default, or its handle is not freed, or a clone is held. */
  lemma AliveIff(s: State, o: Executor)
    requires Inv(s) && Settled(s, o)
    ensures Alive(s, o) <==> !Freed(s, o) || HeldBySomeone(s, o)
  {
    assert RoleOk(s, o);
    if s.roles[o].Listed? && s.roles[o].id in s.registry {
      assert HasRole(s, s.registry[s.roles[o].id], Listed(s.roles[o].id));
    }
    if id :| id in s.registry && s.registry[id] == o {
      assert HasRole(s, s.registry[id], Listed(id));
    }
    forall t | t in s.calls ensures CallInv(s, t) {
    }
  }

  /** Ids are used once, so a freed handle stays freed. */
  lemma StaysFreed(s: State, e: Event, o: Executor)
    requires Inv(s) && Enabled(s, e) && Freed(s, o)
    ensures Freed(Apply(s, e), o)
  {
    StepGrows(s, e);
    assert RoleOk(s, o);
    if e.Insert? {
      assert CallInv(s, e.thread);
    }
  }

  /**
    Freeing a handle leaves every clone that was handed out in place. The executor behind the handle lives on
    exactly if some thread holds such a clone; otherwise its runtime goes, and with it the tasks on it.
    */
  lemma {:induction false} FreeKeepsClones(run: seq<Event>, s: State, id: nat)
    requires ReachedBy(run, s) && id in s.registry
    ensures Apply(s, Free(id)).held == s.held
    ensures Alive(Apply(s, Free(id)), s.registry[id]) <==> exists t :: t in s.held && s.held[t] == s.registry[id]
  {
    RunKeepsInv(run);
    var o, s' := s.registry[id], Apply(s, Free(id));
    assert HasRole(s, o, Listed(id));
    StepKeepsInv(s, Free(id));
    AliveIff(s', o);
  }
}
