/**
  Reader handles of the asynchronous C++ binding.

  Rust keeps the readers in a global map and hands out ids; a C++ `Reader` owns one id, passes it on
  by move, and deletes it in its destructor with a `try_lock` that may fail. Move assignment
  overwrites an id without deleting it. `Lister` handles follow the same code.
  */
module AsyncHandles {
  import opened Common

  // ---------- The two sides as they are written ----------

  /** `READER_COUNTER` and `READER_STORAGE`. */
  class Bridge<R> {
    var counter: nat
    var storage: map<nat, R>

    ghost predicate Valid()
      reads this
    {
      forall id | id in storage :: 1 <= id <= counter
    }

    constructor ()
      ensures Valid() && counter == 0 && storage == map[]
    {
      counter, storage := 0, map[];
    }

    /**
      `operator_reader` after the reader was opened: a new id, never zero, never one that is in use. `s` is the
      state of the whole program below; here and in the other methods it says which of its events happened.
      */
    method OperatorReader(reader: R, ghost s: State<R>) returns (id: nat)
      requires Valid() && s.counter == counter && s.storage == storage && s.creating.None?
      modifies this
      ensures Valid() && id != 0 && id !in old(storage)
      ensures counter == id == old(counter) + 1 && storage == old(storage)[id := reader]
      ensures var s' := Apply(Apply(s, Allocate(reader)), Insert);
              s'.counter == counter && s'.storage == storage && s'.unwrapped == s.unwrapped + {id}
    {
      counter := counter + 1;
      id := counter;
      storage := storage[id := reader];
    }

    /** `reader_read` looks the id up before it reads; an unknown id is an error. */
    method Lookup(id: nat) returns (reader: Option<R>)
      ensures reader == if id in storage then Some(storage[id]) else None
    {
      if id !in storage {
        return None;
      }
      reader := Some(storage[id]);
    }

    /** `delete_reader`; `locked` says that another party holds the storage lock. */
    method DeleteReader(id: nat, locked: bool)
      requires Valid()
      modifies this`storage
      ensures Valid() && storage == if locked then old(storage) else old(storage) - {id}
    {
      if !locked {
        storage := storage - {id};
      }
    }
  }

  /** The C++ class `opendal::async::Reader`. */
  class Reader<R> {
    var readerId: nat

    constructor (id: nat)
      ensures readerId == id
    {
      readerId := id;
    }

    constructor MoveFrom(other: Reader<R>, ghost s: State<R>, ghost dst: nat, ghost src: nat)
      requires Enabled(s, MoveConstruct(dst, src)) && s.handles[src] == other.readerId
      modifies other
      ensures readerId == old(other.readerId) && other.readerId == 0
      ensures Apply(s, MoveConstruct(dst, src)).handles == s.handles[dst := readerId][src := other.readerId]
    {
      readerId := other.readerId;
      new;
      other.readerId := 0;
    }

    /** `operator=`; the id that this handle held before is forgotten, not deleted. */
    method Assign(other: Reader<R>, ghost s: State<R>, ghost dst: nat, ghost src: nat)
      requires Enabled(s, MoveAssign(dst, src)) && (dst == src <==> this == other)
      requires s.handles[dst] == readerId && s.handles[src] == other.readerId
      modifies this, other
      ensures this != other ==> readerId == old(other.readerId) && other.readerId == 0
      ensures this == other ==> readerId == old(readerId)
      ensures Apply(s, MoveAssign(dst, src)).handles == s.handles[dst := readerId][src := other.readerId]
    {
      if this != other {
        readerId := other.readerId;
        other.readerId := 0;
      }
    }

    method Destroy(bridge: Bridge<R>, locked: bool, ghost s: State<R>, ghost at: nat)
      requires bridge.Valid() && Enabled(s, Destruct(at, locked))
      requires s.handles[at] == readerId && s.storage == bridge.storage
      modifies this, bridge`storage
      ensures bridge.Valid() && readerId == 0
      ensures bridge.storage ==
              if locked || old(readerId) == 0 then old(bridge.storage) else old(bridge.storage) - {old(readerId)}
      ensures Apply(s, Destruct(at, locked)).storage == bridge.storage
    {
      if readerId != 0 {
        bridge.DeleteReader(readerId, locked);
        readerId := 0;
      }
    }
  }

  /**
    `Reader::Read` up to the point where the reader is reached, in any state `s` that a run leads to. A handle that
    holds an id reaches the reader that this id was issued for; a handle that was moved from gets an error.
    */
  method Reach<R>(handle: Reader<R>, bridge: Bridge<R>, ghost run: seq<Event<R>>, ghost s: State<R>, ghost at: nat)
    returns (reader: Option<R>)
    requires ReachedBy(run, s) && s.storage == bridge.storage
    requires at in s.handles && s.handles[at] == handle.readerId
    ensures reader.Some? <==> handle.readerId != 0
    ensures reader.Some? ==> handle.readerId in s.issued && reader.value == s.issued[handle.readerId]
  {
    ExactAccounting(run, s);
    reader := bridge.Lookup(handle.readerId);
  }

  // ---------- All handles together ----------

  /**
    `handles` maps the address of every living C++ object to the id it holds. `creating` is the id between
    the two locks of `operator_reader`, which keeps the counter locked in that time. The last three fields
    are history: ids given to C++ and not wrapped yet, ids that no handle will ever delete, and the reader
    that each id was issued for.
    */
  datatype State<R> = State(
    counter: nat,
    storage: map<nat, R>,
    creating: Option<(nat, R)>,
    handles: map<nat, nat>,
    unwrapped: set<nat>,
    lost: set<nat>,
    issued: map<nat, R>)

  datatype Event<R> =
    | Allocate(reader: R)
    | Insert
    | Abandon                          // the future is dropped while it waits for the storage lock
    | Wrap(at: nat, id: nat)
    | MoveConstruct(dst: nat, src: nat)
    | MoveAssign(dst: nat, src: nat)
    | Destruct(at: nat, locked: bool)

  function Initial<R>(): State<R> {
    State(0, map[], None, map[], {}, {}, map[])
  }

  /** C++ wraps each id that it was given once, and constructs objects at free addresses. */
  predicate Enabled<R>(s: State<R>, e: Event<R>) {
    match e
    case Allocate(_) => s.creating.None?
    case Insert => s.creating.Some?
    case Abandon => s.creating.Some?
    case Wrap(at, id) => at !in s.handles && id in s.unwrapped
    case MoveConstruct(dst, src) => dst !in s.handles && src in s.handles
    case MoveAssign(dst, src) => dst in s.handles && src in s.handles
    case Destruct(at, _) => at in s.handles
  }

  function Nonzero(id: nat): set<nat> {
    if id == 0 then {} else {id}
  }

  /** The id that an event makes unreachable, or zero. */
  function LostBy<R>(s: State<R>, e: Event<R>): nat
    requires Enabled(s, e)
  {
    match e
    case MoveAssign(dst, src) => if dst == src then 0 else s.handles[dst]
    case Destruct(at, locked) => if locked then s.handles[at] else 0
    case _ => 0
  }

  function Apply<R>(s: State<R>, e: Event<R>): State<R>
    requires Enabled(s, e)
  {
    match e
    case Allocate(reader) => s.(counter := s.counter + 1, creating := Some((s.counter + 1, reader)))
    case Insert =>
      var (id, reader) := s.creating.value;
      s.(storage := s.storage[id := reader], creating := None, unwrapped := s.unwrapped + {id},
         issued := s.issued[id := reader])
    case Abandon => s.(creating := None)
    case Wrap(at, id) => s.(handles := s.handles[at := id], unwrapped := s.unwrapped - {id})
    case MoveConstruct(dst, src) => s.(handles := s.handles[dst := s.handles[src]][src := 0])
    case MoveAssign(dst, src) =>
      if dst == src then s
      else s.(handles := s.handles[dst := s.handles[src]][src := 0],
              lost := s.lost + Nonzero(s.handles[dst]))
    case Destruct(at, locked) =>
      var id := s.handles[at];
      if locked then s.(handles := s.handles - {at}, lost := s.lost + Nonzero(id))
      else s.(handles := s.handles - {at}, storage := if id == 0 then s.storage else s.storage - {id})
  }

  function Exec<R>(s: State<R>, run: seq<Event<R>>): Option<State<R>>
    decreases |run|
  {
    if run == [] then Some(s)
    else if Enabled(s, run[0]) then Exec(Apply(s, run[0]), run[1..])
    else None
  }

  /** How many ids a run makes unreachable: by assignment over a full handle or by a skipped delete. */
  function Leaks<R>(s: State<R>, run: seq<Event<R>>): nat
    decreases |run|
  {
    if run == [] || !Enabled(s, run[0]) then 0
    else (if LostBy(s, run[0]) != 0 then 1 else 0) + Leaks(Apply(s, run[0]), run[1..])
  }

  ghost function Owned(handles: map<nat, nat>): set<nat> {
    set a | a in handles && handles[a] != 0 :: handles[a]
  }

  /** No two handles hold the same id. */
  ghost predicate OneOwner(handles: map<nat, nat>) {
    forall a, b | a in handles && b in handles && handles[a] == handles[b] != 0 :: a == b
  }

  ghost predicate Inv<R>(s: State<R>) {
    && OneOwner(s.handles)
    // what is stored is exactly what is owned, not wrapped yet, or lost
    && s.storage.Keys == Owned(s.handles) + s.unwrapped + s.lost
    && Owned(s.handles) !! s.unwrapped
    && Owned(s.handles) !! s.lost
    && s.unwrapped !! s.lost
    // every id is stored under the reader it was issued for
    && (forall id | id in s.storage :: id in s.issued && s.storage[id] == s.issued[id])
    && (forall id | id in s.issued :: 1 <= id <= s.counter)
    && (s.creating.Some? ==> s.creating.value.0 == s.counter >= 1 && s.counter !in s.issued)
  }

  lemma {:induction false} OwnedAfterMove(h: map<nat, nat>, dst: nat, src: nat)
    requires OneOwner(h) && src in h && dst != src
    ensures var h' := h[dst := h[src]][src := 0];
            OneOwner(h') && Owned(h') == Owned(h) - (if dst in h then {h[dst]} else {})
  {
    var h' := h[dst := h[src]][src := 0];
    var gone := if dst in h then {h[dst]} else {};
    assert forall a | a in h && a != dst && a != src :: h'[a] == h[a];
    forall id | id in Owned(h) - gone ensures id in Owned(h') {
      var a :| a in h && h[a] == id && h[a] != 0;
      assert h'[if a == src then dst else a] == id;
    }
    forall id | id in Owned(h') ensures id in Owned(h) - gone {
      var a :| a in h' && h'[a] == id && h'[a] != 0;
      assert h[if a == dst then src else a] == id;
    }
  }

  lemma OwnedAfterRemoval(h: map<nat, nat>, at: nat)
    requires OneOwner(h) && at in h
    ensures OneOwner(h - {at}) && Owned(h - {at}) == Owned(h) - {h[at]}
  {
    forall id | id in Owned(h) - {h[at]} ensures id in Owned(h - {at}) {
      var a :| a in h && h[a] == id && h[a] != 0;
      assert (h - {at})[a] == id;
    }
  }

  lemma OwnedAfterWrap(h: map<nat, nat>, at: nat, id: nat)
    requires OneOwner(h) && at !in h && id != 0 && id !in Owned(h)
    ensures OneOwner(h[at := id]) && Owned(h[at := id]) == Owned(h) + {id}
  {
    var h' := h[at := id];
    assert h'[at] == id;
    forall x | x in Owned(h) ensures x in Owned(h') {
      var a :| a in h && h[a] == x && h[a] != 0;
      assert h'[a] == x;
    }
  }

  lemma StepKeepsInv<R>(s: State<R>, e: Event<R>)
    requires Inv(s) && Enabled(s, e)
    ensures Inv(Apply(s, e))
  {
    match e
    case Wrap(at, id) =>
      OwnedAfterWrap(s.handles, at, id);
    case MoveConstruct(dst, src) =>
      OwnedAfterMove(s.handles, dst, src);
    case MoveAssign(dst, src) =>
      if dst != src {
        OwnedAfterMove(s.handles, dst, src);
        assert s.handles[dst] != 0 ==> s.handles[dst] in Owned(s.handles);
      }
    case Destruct(at, locked) =>
      OwnedAfterRemoval(s.handles, at);
      assert s.handles[at] != 0 ==> s.handles[at] in Owned(s.handles);
    case _ =>
  }

  /** Exact accounting holds in every state of every run. */
  lemma {:induction false} RunKeepsInv<R>(s: State<R>, run: seq<Event<R>>)
    requires Inv(s) && Exec(s, run).Some?
    ensures Inv(Exec(s, run).value)
    decreases |run|
  {
    if run != [] {
      StepKeepsInv(s, run[0]);
      RunKeepsInv(Apply(s, run[0]), run[1..]);
    }
  }

  lemma LostGrows<R>(s: State<R>, e: Event<R>)
    requires Enabled(s, e)
    ensures Apply(s, e).lost == s.lost + Nonzero(LostBy(s, e))
  {
    match e
    case MoveAssign(_, _) =>
    case Destruct(_, _) =>
    case _ =>
  }

  lemma LostWasOwned<R>(s: State<R>, e: Event<R>)
    requires Enabled(s, e) && LostBy(s, e) != 0
    ensures LostBy(s, e) in Owned(s.handles)
  {
    var a := if e.MoveAssign? then e.dst else e.at;
    assert s.handles[a] == LostBy(s, e);
  }

  lemma StepCountsLeak<R>(s: State<R>, e: Event<R>)
    requires Inv(s) && Enabled(s, e)
    ensures s.lost <= Apply(s, e).lost
    ensures |Apply(s, e).lost| == |s.lost| + if LostBy(s, e) != 0 then 1 else 0
  {
    LostGrows(s, e);
    if LostBy(s, e) != 0 {
      LostWasOwned(s, e);
    } else {
      assert s.lost + {} == s.lost;
    }
  }

  /** A lost id stays in storage in every continuation, and lost ids are counted by `Leaks`. */
  lemma {:induction false} LostForever<R>(s: State<R>, run: seq<Event<R>>)
    requires Inv(s) && Exec(s, run).Some?
    ensures var s' := Exec(s, run).value;
            && s.lost <= s'.lost <= s'.storage.Keys
            && |s'.lost| == |s.lost| + Leaks(s, run)
    decreases |run|
  {
    if run != [] {
      StepCountsLeak(s, run[0]);
      StepKeepsInv(s, run[0]);
      LostForever(Apply(s, run[0]), run[1..]);
    }
  }

  ghost predicate ReachedBy<R>(run: seq<Event<R>>, s: State<R>) {
    Exec(Initial(), run) == Some(s)
  }

  /**
    After any run: an id has one owner at most; a handle that holds an id reaches the reader that the id was
    issued for, and a handle that was moved from reaches none; and storage holds the owned ids, the ids that
    wait to be wrapped, and one more entry for each event that lost an id.
    */
  lemma {:induction false} ExactAccounting<R>(run: seq<Event<R>>, s: State<R>)
    requires ReachedBy(run, s)
    ensures OneOwner(s.handles)
    ensures forall a | a in s.handles :: s.handles[a] in s.storage <==> s.handles[a] != 0
    ensures forall id | id in s.storage :: id in s.issued && s.storage[id] == s.issued[id]
    ensures |s.storage| == |Owned(s.handles)| + |s.unwrapped| + Leaks(Initial(), run)
  {
    RunKeepsInv(Initial<R>(), run);
    LostForever(Initial<R>(), run);
    forall a | a in s.handles ensures s.handles[a] in s.storage <==> s.handles[a] != 0 {
      assert s.handles[a] != 0 ==> s.handles[a] in Owned(s.handles);
    }
    var owned := Owned(s.handles);
    assert |s.storage| == |s.storage.Keys|;
    assert |owned + s.unwrapped + s.lost| == |owned| + |s.unwrapped| + |s.lost|;
  }

  /** The reader that the handle at `a` leads to. */
  function Reached<R>(s: State<R>, a: nat): Option<R> {
    if a in s.handles && s.handles[a] in s.storage then Some(s.storage[s.handles[a]]) else None
  }

  /**
    A move hands the reader over: the new handle reaches what the old one reached, the old one reaches nothing any more,
    and no other handle and no stored reader is touched.
    */
  lemma {:induction false} MoveHandsOver<R>(run: seq<Event<R>>, s: State<R>, e: Event<R>)
    requires ReachedBy(run, s) && Enabled(s, e)
    requires e.MoveConstruct? || (e.MoveAssign? && e.dst != e.src)
    ensures var s' := Apply(s, e);
            && Reached(s', e.dst) == Reached(s, e.src)
            && e.src in s'.handles && Reached(s', e.src) == None
            && (forall a | a != e.dst && a != e.src :: Reached(s', a) == Reached(s, a))
            && s'.storage == s.storage && s'.handles.Keys == s.handles.Keys + {e.dst}
  {
    RunKeepsInv(Initial<R>(), run);
  }

  lemma SelfAssignmentKeeps<R>(s: State<R>, a: nat)
    requires a in s.handles
    ensures Apply(s, MoveAssign(a, a)) == s
  {
  }

  /** A new handle reaches the reader that its id was issued for; the other handles keep theirs. */
  lemma {:induction false} WrapReachesIssued<R>(run: seq<Event<R>>, s: State<R>, at: nat, id: nat)
    requires ReachedBy(run, s) && Enabled(s, Wrap(at, id))
    ensures var s' := Apply(s, Wrap(at, id));
            && id in s.issued && Reached(s', at) == Some(s.issued[id])
            && (forall a | a != at :: Reached(s', a) == Reached(s, a))
            && s'.storage == s.storage
  {
    RunKeepsInv(Initial<R>(), run);
  }

  /** A destructor deletes the reader of its own handle if it gets the lock, and nothing else ever. */
  lemma {:induction false} DestructDeletesOwn<R>(run: seq<Event<R>>, s: State<R>, at: nat, locked: bool)
    requires ReachedBy(run, s) && at in s.handles
    ensures var s' := Apply(s, Destruct(at, locked));
            && at !in s'.handles
            && (forall a | a != at :: Reached(s', a) == Reached(s, a))
            && s'.storage == if locked then s.storage else s.storage - {s.handles[at]}
  {
    RunKeepsInv(Initial<R>(), run);
    var s' := Apply(s, Destruct(at, locked));
    assert s.handles[at] == 0 ==> s.storage - {0} == s.storage;
    forall a | a != at ensures Reached(s', a) == Reached(s, a) {
    }
  }

  /** An id is lost exactly by an assignment over a handle that holds one, or by a destructor without the lock. */
  lemma LosesIff<R>(s: State<R>, e: Event<R>)
    requires Enabled(s, e)
    ensures LostBy(s, e) != 0 <==>
            || (e.MoveAssign? && e.dst != e.src && s.handles[e.dst] != 0)
            || (e.Destruct? && e.locked && s.handles[e.at] != 0)
  {
    match e
    case MoveAssign(_, _) =>
    case Destruct(_, _) =>
    case _ =>
  }

  /** When every id was wrapped and every handle destroyed, nothing is left behind exactly if no event lost an id. */
  lemma {:induction false} CleanShutdownIff<R>(run: seq<Event<R>>, s: State<R>)
    requires ReachedBy(run, s) && s.handles == map[] && s.unwrapped == {}
    ensures s.storage == map[] <==> Leaks(Initial(), run) == 0
  {
    ExactAccounting(run, s);
    assert Owned(s.handles) == {};
  }

  /** Both ways of losing an id happen: here one reader is lost by assignment, the other by a busy lock. */
  lemma {:induction false} BothLeaksHappen(first: int, second: int)
    ensures var run := [Allocate(first), Insert, Wrap(1, 1), Allocate(second), Insert, Wrap(2, 2),
                        MoveAssign(1, 2), Destruct(2, false), Destruct(1, true)];
            && Exec(Initial(), run).Some?
            && Exec(Initial(), run).value.storage == map[1 := first, 2 := second]
            && Exec(Initial(), run).value.handles == map[]
  {
    var a := Apply(Apply(Initial<int>(), Allocate(first)), Insert);
    var b := Apply(Apply(Apply(a, Wrap(1, 1)), Allocate(second)), Insert);
    var c := Apply(Apply(b, Wrap(2, 2)), MoveAssign(1, 2));
    var d := Apply(Apply(c, Destruct(2, false)), Destruct(1, true));
    assert d.storage == map[1 := first, 2 := second] && d.handles == map[];
    var r3 := [MoveAssign(1, 2), Destruct(2, false), Destruct(1, true)];
    ExecFew(Apply(b, Wrap(2, 2)), r3[0], r3[1], r3[2]);
    var r2 := [Allocate(second), Insert, Wrap(2, 2)];
    ExecFew(Apply(a, Wrap(1, 1)), r2[0], r2[1], r2[2]);
    ExecFew(Initial<int>(), Allocate(first), Insert, Wrap(1, 1));
    ExecConcat(Initial<int>(), [Allocate(first), Insert, Wrap(1, 1)], r2 + r3);
    ExecConcat(Apply(a, Wrap(1, 1)), r2, r3);
    assert [Allocate(first), Insert, Wrap(1, 1)] + (r2 + r3) ==
           [Allocate(first), Insert, Wrap(1, 1), Allocate(second), Insert, Wrap(2, 2),
            MoveAssign(1, 2), Destruct(2, false), Destruct(1, true)];
  }

  lemma ExecFew<R>(s: State<R>, e1: Event<R>, e2: Event<R>, e3: Event<R>)
    requires Enabled(s, e1) && Enabled(Apply(s, e1), e2) && Enabled(Apply(Apply(s, e1), e2), e3)
    ensures Exec(s, [e1, e2, e3]) == Some(Apply(Apply(Apply(s, e1), e2), e3))
  {
    assert [e1, e2, e3][1..] == [e2, e3] && [e2, e3][1..] == [e3] && [e3][1..] == [];
    assert Exec(Apply(Apply(s, e1), e2), [e3]) == Exec(Apply(Apply(Apply(s, e1), e2), e3), []);
  }

  lemma {:induction false} ExecConcat<R>(s: State<R>, a: seq<Event<R>>, b: seq<Event<R>>)
    requires Exec(s, a).Some?
    ensures Exec(s, a + b) == Exec(Exec(s, a).value, b)
    decreases |a|
  {
    if a == [] {
      assert a + b == b;
    } else {
      assert (a + b)[1..] == a[1..] + b;
      ExecConcat(Apply(s, a[0]), a[1..], b);
    }
  }
}
