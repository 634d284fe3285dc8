/**
  The id allocator of the .NET binding (`AsyncStateRegistry.Register`).

  `nextAsyncStateId` is a signed 64-bit counter that wraps from `MAX_ID` to `MIN_ID`.
  Registering retries until it draws an id that is neither zero nor in use.
  */
module AsyncRegistry {
  import opened Common

  const TWO_64: int := 0x1_0000_0000_0000_0000
  const MAX_ID: int := 0x7FFF_FFFF_FFFF_FFFF
  const MIN_ID: int := -0x8000_0000_0000_0000

  newtype Id = x: int | -0x8000_0000_0000_0000 <= x <= 0x7FFF_FFFF_FFFF_FFFF

  /** `Interlocked.Increment` on a `long`. */
  function Increment(id: Id): Id {
    if id as int == MAX_ID then MIN_ID as Id else id + 1
  }

  /** The id drawn by the `n`-th increment of a counter that stands at `start`. */
  function Drawn(start: Id, n: nat): Id
    requires n <= TWO_64
  {
    var sum := start as int + n;
    if sum > MAX_ID then (sum - TWO_64) as Id else sum as Id
  }

  /** Up to 2^64 increments never draw the same id twice. */
  lemma DrawnInjective(start: Id, m: nat, n: nat)
    requires 1 <= m <= TWO_64 && 1 <= n <= TWO_64
    ensures Drawn(start, m) == Drawn(start, n) <==> m == n
  {
  }

  lemma DrawnStep(start: Id, n: nat)
    requires n + 1 <= TWO_64
    ensures Drawn(start, n + 1) == Increment(Drawn(start, n))
  {
  }

  /** The ids drawn by increments 1 to `n`. */
  ghost function DrawnSet(start: Id, n: nat): set<Id>
    requires n <= TWO_64
  {
    if n == 0 then {} else DrawnSet(start, n - 1) + {Drawn(start, n)}
  }

  lemma {:induction false} DrawnSetMembers(start: Id, n: nat, k: nat)
    requires n <= TWO_64 && 1 <= k <= TWO_64
    ensures Drawn(start, k) in DrawnSet(start, n) <==> k <= n
  {
    if n != 0 {
      DrawnSetMembers(start, n - 1, k);
      DrawnInjective(start, k, n);
    }
  }

  /** `n` increments draw `n` different ids. */
  lemma {:induction false} DrawnSetSize(start: Id, n: nat)
    requires n <= TWO_64
    ensures |DrawnSet(start, n)| == n
  {
    if n != 0 {
      DrawnSetSize(start, n - 1);
      DrawnSetMembers(start, n - 1, n);
    }
  }

  lemma SubsetSize<T>(a: set<T>, b: set<T>)
    requires a <= b
    ensures |a| <= |b|
  {
    assert a + (b - a) == b;
  }

  /** Pigeonhole: a run of rejected draws is no longer than the ids that can cause rejection. */
  lemma RejectedDrawsAreFew(start: Id, n: nat, used: set<Id>)
    requires n <= TWO_64
    requires DrawnSet(start, n) <= used + {0}
    ensures n <= |used| + 1
  {
    DrawnSetSize(start, n);
    SubsetSize(DrawnSet(start, n), used + {0});
    assert |used + {0}| <= |used| + 1 by {
      if 0 in used {
        assert used + {0} == used;
      }
    }
  }

  /** The shared dictionary and its counter, seen by one thread while no other registers. */
  class Registry<T> {
    var nextAsyncStateId: Id
    var asyncStates: map<Id, T>

    constructor ()
      ensures nextAsyncStateId == 0 && asyncStates == map[]
    {
      nextAsyncStateId := 0;
      asyncStates := map[];
    }

    /**
      The precondition says that some non-zero id is free; without it the source loops for ever.
      `tries` counts the increments.
      */
    method Register(state: T) returns (id: Id, tries: nat)
      requires |asyncStates| <= TWO_64 - 2
      modifies this
      ensures id != 0 && id !in old(asyncStates)
      ensures asyncStates == old(asyncStates)[id := state]
      // at most one increment per live registration, one for zero, and one that succeeds
      ensures 1 <= tries <= |old(asyncStates)| + 2
      ensures nextAsyncStateId == id == Drawn(old(nextAsyncStateId), tries)
      // the first acceptable id is the one that is chosen
      ensures DrawnSet(old(nextAsyncStateId), tries - 1) <= old(asyncStates).Keys + {0}
    {
      ghost var start := nextAsyncStateId;
      ghost var used := asyncStates.Keys;
      assert |used| == |asyncStates|;
      tries := 0;
      while true
        invariant tries <= |used| + 1
        invariant nextAsyncStateId == Drawn(start, tries)
        invariant asyncStates == old(asyncStates)
        invariant DrawnSet(start, tries) <= used + {0}
        decreases |used| + 2 - tries
      {
        DrawnStep(start, tries);
        nextAsyncStateId := Increment(nextAsyncStateId);
        id := nextAsyncStateId;
        tries := tries + 1;
        if id == 0 {
          RejectedDrawsAreFew(start, tries, used);
          continue;
        }
        if id !in asyncStates {
          asyncStates := asyncStates[id := state];
          return;
        }
        RejectedDrawsAreFew(start, tries, used);
      }
    }

    method Unregister(context: Id)
      modifies this`asyncStates
      ensures asyncStates == old(asyncStates) - {context}
    {
      asyncStates := asyncStates - {context};
    }

    /** The entry is removed and handed over, if there is one. */
    method TryTake(context: Id) returns (state: Option<T>)
      modifies this`asyncStates
      ensures state == if context in old(asyncStates) then Some(old(asyncStates)[context]) else None
      ensures asyncStates == old(asyncStates) - {context}
    {
      if context !in asyncStates {
        return None;
      }
      state := Some(asyncStates[context]);
      asyncStates := asyncStates - {context};
    }
  }
}
