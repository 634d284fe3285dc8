/**
  How the Go binding builds the context that holds its foreign functions.

  Every package variable made by `newFFI` appends itself to `withFFIs` when Go initialises it. `newContext`
  then folds over that list: each `withFFI` stores a closure that captured the context built so far, and
  a closure that calls another foreign function looks that one up in the context it captured.

  Go initialises package variables as its language specification says under "Package initialization": again and
  again the earliest declared variable that is not initialised and depends on no uninitialised variable.
  */
module FfiContext {
  import opened Common

  /**
    One `newFFI` variable: its symbol, the variables that its initialisation expression refers to (directly or
    through functions), and those among them whose symbol its closure looks up. A lookup `ffiX.symbol(ctx)` names
    the variable, so it is a reference, too.
    */
  datatype Decl = Decl(sym: string, deps: set<nat>, lookups: set<nat>)

  ghost predicate WellFormed(decls: seq<Decl>) {
    forall i | 0 <= i < |decls| ::
      decls[i].lookups <= decls[i].deps && forall d | d in decls[i].deps :: d < |decls|
  }

  predicate DistinctSymbols(decls: seq<Decl>) {
    forall i, j | 0 <= i < j < |decls| :: decls[i].sym != decls[j].sym
  }

  // ---------- Go's order of initialisation ----------

  function Elems(s: seq<nat>): set<nat> {
    set x | x in s
  }

  function Below(n: nat): (r: set<nat>)
    ensures forall i: nat :: i in r <==> i < n
  {
    if n == 0 then {} else Below(n - 1) + {n - 1}
  }

  predicate Ready(decls: seq<Decl>, done: seq<nat>, i: nat)
    requires i < |decls|
  {
    i !in done && forall d | d in decls[i].deps :: d in done
  }

  /** The earliest variable from `i` on that is ready. */
  function FirstReady(decls: seq<Decl>, done: seq<nat>, i: nat): (r: Option<nat>)
    requires i <= |decls|
    ensures r.Some? ==> i <= r.value < |decls| && Ready(decls, done, r.value)
    ensures r.Some? ==> forall j | i <= j < r.value :: !Ready(decls, done, j)
    ensures r.None? ==> forall j | i <= j < |decls| :: !Ready(decls, done, j)
    decreases |decls| - i
  {
    if i == |decls| then None
    else if Ready(decls, done, i) then Some(i)
    else FirstReady(decls, done, i + 1)
  }

  /** The order in which the variables are initialised, going on from `done`. */
  function Init(decls: seq<Decl>, done: seq<nat>): seq<nat>
    decreases Below(|decls|) - Elems(done)
  {
    match FirstReady(decls, done, 0)
    case None => done
    case Some(i) =>
      assert i in Below(|decls|) - Elems(done);
      Init(decls, done + [i])
  }

  /** Every variable once, and after everything it depends on. */
  ghost predicate Ordered(decls: seq<Decl>, order: seq<nat>) {
    forall k | 0 <= k < |order| ::
      && order[k] < |decls|
      && order[k] !in order[..k]
      && forall d | d in decls[order[k]].deps :: d in order[..k]
  }

  lemma OrderedAppend(decls: seq<Decl>, order: seq<nat>, i: nat)
    requires Ordered(decls, order) && i < |decls| && Ready(decls, order, i)
    ensures Ordered(decls, order + [i])
  {
    var longer := order + [i];
    forall k | 0 <= k < |longer|
      ensures longer[k] < |decls| && longer[k] !in longer[..k]
      ensures forall d | d in decls[longer[k]].deps :: d in longer[..k]
    {
      assert longer[..k] == order[..k];
      if k == |order| {
        assert order[..k] == order;
      }
    }
  }

  lemma {:induction false} InitIsOrdered(decls: seq<Decl>, done: seq<nat>)
    requires Ordered(decls, done)
    ensures Ordered(decls, Init(decls, done))
    ensures FirstReady(decls, Init(decls, done), 0).None?
    decreases Below(|decls|) - Elems(done)
  {
    match FirstReady(decls, done, 0)
    case None =>
    case Some(i) =>
      assert i in Below(|decls|) - Elems(done);
      OrderedAppend(decls, done, i);
      InitIsOrdered(decls, done + [i]);
  }

  /** Each variable is the earliest that was ready when its turn came. */
  ghost predicate InTurn(decls: seq<Decl>, order: seq<nat>) {
    forall k | 0 <= k < |order| :: IsTurnOf(decls, order[..k], order[k])
  }

  ghost predicate IsTurnOf(decls: seq<Decl>, done: seq<nat>, i: nat) {
    i < |decls| && Ready(decls, done, i) && forall j | 0 <= j < i :: !Ready(decls, done, j)
  }

  lemma {:induction false} InitGoesInTurn(decls: seq<Decl>, done: seq<nat>)
    requires InTurn(decls, done)
    ensures InTurn(decls, Init(decls, done))
    ensures forall i | 0 <= i < |decls| :: !Ready(decls, Init(decls, done), i)
    decreases Below(|decls|) - Elems(done)
  {
    match FirstReady(decls, done, 0)
    case None =>
    case Some(i) =>
      assert i in Below(|decls|) - Elems(done);
      var longer := done + [i];
      forall k | 0 <= k < |longer| ensures IsTurnOf(decls, longer[..k], longer[k]) {
        assert longer[..k] == done[..k];
        if k == |done| {
          assert done[..k] == done;
        }
      }
      InitGoesInTurn(decls, longer);
  }

  lemma {:induction false} TurnsLeadOn(decls: seq<Decl>, order: seq<nat>, n: nat)
    requires InTurn(decls, order) && n <= |order|
    ensures Init(decls, order[..n]) == Init(decls, [])
  {
    if n > 0 {
      TurnsLeadOn(decls, order, n - 1);
      var done, i := order[..n - 1], order[n - 1];
      assert IsTurnOf(decls, done, i);
      assert done + [i] == order[..n];
      assert FirstReady(decls, done, 0) == Some(i);
      assert i in Below(|decls|) - Elems(done);
    }
  }

  /** The language specification fixes the order: one variable after the other in its turn, until none is ready. */
  lemma {:induction false} InitIsTheOrder(decls: seq<Decl>, order: seq<nat>)
    ensures order == Init(decls, []) <==>
            InTurn(decls, order) && forall i | 0 <= i < |decls| :: !Ready(decls, order, i)
  {
    InitGoesInTurn(decls, []);
    if InTurn(decls, order) && forall i | 0 <= i < |decls| :: !Ready(decls, order, i) {
      TurnsLeadOn(decls, order, |order|);
      assert order[..|order|] == order;
    }
  }

  lemma OrderedOnce(decls: seq<Decl>, order: seq<nat>, a: nat, b: nat)
    requires Ordered(decls, order) && a < |order| && b < |order| && order[a] == order[b]
    ensures a == b
  {
  }

  /** `rank` goes down along every dependency. */
  ghost predicate Ranks(decls: seq<Decl>, rank: seq<nat>) {
    |rank| == |decls| &&
    forall i, d | 0 <= i < |decls| && d in decls[i].deps && d < |decls| :: rank[d] < rank[i]
  }

  ghost predicate Acyclic(decls: seq<Decl>) {
    exists rank: seq<nat> :: Ranks(decls, rank)
  }

  ghost predicate Complete(decls: seq<Decl>, order: seq<nat>) {
    forall i | 0 <= i < |decls| :: i in order
  }

  /** Among the variables that are missing, some variable of least rank is ready. */
  lemma {:induction false} MissingMeansReady(decls: seq<Decl>, rank: seq<nat>, done: seq<nat>, i: nat) returns (j: nat)
    requires WellFormed(decls) && Ranks(decls, rank) && i < |decls| && i !in done
    ensures j < |decls| && Ready(decls, done, j)
    decreases rank[i]
  {
    if d :| d in decls[i].deps && d !in done {
      j := MissingMeansReady(decls, rank, done, d);
    } else {
      j := i;
    }
  }

  ghost function IndexOf(order: seq<nat>, x: nat): (k: nat)
    requires x in order
    ensures k < |order| && order[k] == x
  {
    var k :| 0 <= k < |order| && order[k] == x;
    k
  }

  /** Go initialises every variable exactly if the dependencies have no cycle. */
  lemma InitCompletesIff(decls: seq<Decl>)
    requires WellFormed(decls)
    ensures Complete(decls, Init(decls, [])) <==> Acyclic(decls)
  {
    InitIsOrdered(decls, []);
    var order := Init(decls, []);
    if Acyclic(decls) {
      var rank :| Ranks(decls, rank);
      forall i | 0 <= i < |decls| ensures i in order {
        if i !in order {
          var j := MissingMeansReady(decls, rank, order, i);
          assert false;
        }
      }
    }
    if Complete(decls, order) {
      var rank := seq(|decls|, i requires 0 <= i < |decls| => IndexOf(order, i));
      forall i, d | 0 <= i < |decls| && d in decls[i].deps && d < |decls| ensures rank[d] < rank[i] {
        var k := rank[i];
        assert d in order[..k];
        var m :| 0 <= m < k && order[m] == d;
        OrderedOnce(decls, order, rank[d], m);
      }
      assert Ranks(decls, rank);
    }
  }

  // ---------- The context ----------

  /** A `context.Context` chain, and the value stored under a symbol. */
  datatype Ctx = Background | WithValue(parent: Ctx, key: string, val: Closure)

  /** The function of variable `decl`, bound to a library, with the context it captured. */
  datatype Closure = Closure(decl: nat, lib: nat, captured: Ctx)

  /** `ctx.Value`; a missing key makes `symbol` panic. */
  function Value(ctx: Ctx, key: string): (r: Option<Closure>)
    ensures r.Some? ==> r.value < ctx
  {
    match ctx
    case Background => None
    case WithValue(parent, k, v) => if k == key then Some(v) else Value(parent, key)
  }

  datatype Error = BadCif(decl: nat) | NoSymbol(sym: string) | NoLibrary

  datatype Result = Ok(ctx: Ctx) | Err(error: Error)

  /** A loaded library: its handle, what it exports, and the variables whose call interface cannot be prepared. */
  datatype Library = Library(handle: nat, exports: set<string>, badCifs: set<nat>)

  function WithFFI(decls: seq<Decl>, i: nat, ctx: Ctx, lib: Library): Result
    requires i < |decls|
  {
    if i in lib.badCifs then Err(BadCif(i))
    else if decls[i].sym !in lib.exports then Err(NoSymbol(decls[i].sym))
    else Ok(WithValue(ctx, decls[i].sym, Closure(i, lib.handle, ctx)))
  }

  /** The fold of `newContext`. */
  function Build(decls: seq<Decl>, order: seq<nat>, lib: Library): Result
    requires forall k | 0 <= k < |order| :: order[k] < |decls|
  {
    if order == [] then Ok(Background)
    else
      var front, last := order[..|order| - 1], order[|order| - 1];
      match Build(decls, front, lib)
      case Err(e) => Err(e)
      case Ok(ctx) => WithFFI(decls, last, ctx, lib)
  }

  predicate Loads(decls: seq<Decl>, i: nat, lib: Library)
    requires i < |decls|
  {
    i !in lib.badCifs && decls[i].sym in lib.exports
  }

  /** Building succeeds exactly if every variable loads; otherwise the error is that of the first that does not. */
  lemma {:induction false} BuildSucceedsIff(decls: seq<Decl>, order: seq<nat>, lib: Library)
    requires forall k | 0 <= k < |order| :: order[k] < |decls|
    ensures Build(decls, order, lib).Ok? <==>
            forall k | 0 <= k < |order| :: order[k] !in lib.badCifs && decls[order[k]].sym in lib.exports
    ensures Build(decls, order, lib).Err? ==>
              exists k | 0 <= k < |order| ::
                && (order[k] in lib.badCifs || decls[order[k]].sym !in lib.exports)
                && Build(decls, order, lib) ==
                   Err(if order[k] in lib.badCifs then BadCif(order[k]) else NoSymbol(decls[order[k]].sym))
                && forall j | 0 <= j < k :: order[j] !in lib.badCifs && decls[order[j]].sym in lib.exports
  {
    if order != [] {
      var front, n := order[..|order| - 1], |order| - 1;
      BuildSucceedsIff(decls, front, lib);
      assert forall k | 0 <= k < n :: front[k] == order[k];
      if Build(decls, front, lib).Ok? {
        assert Build(decls, order, lib) == WithFFI(decls, order[n], Build(decls, front, lib).ctx, lib);
      } else {
        var k :| 0 <= k < n
                 && (front[k] in lib.badCifs || decls[front[k]].sym !in lib.exports)
                 && Build(decls, front, lib) ==
                    Err(if front[k] in lib.badCifs then BadCif(front[k]) else NoSymbol(decls[front[k]].sym))
                 && forall j | 0 <= j < k :: front[j] !in lib.badCifs && decls[front[j]].sym in lib.exports;
        assert front[k] == order[k] && Build(decls, order, lib) == Build(decls, front, lib);
      }
    }
  }

  /** Calling the closure finds every function it looks up, and so do these in turn, all in one library. */
  ghost predicate Callable(decls: seq<Decl>, c: Closure, lib: nat)
    decreases c
  {
    && c.lib == lib && c.decl < |decls|
    && forall l | l in decls[c.decl].lookups ::
         && l < |decls|
         && var v := Value(c.captured, decls[l].sym);
         && v.Some? && v.value.decl == l && Callable(decls, v.value, lib)
  }

  /** The context holds, under its own symbol, a callable closure for each of the given variables. */
  ghost predicate Holds(decls: seq<Decl>, ctx: Ctx, order: seq<nat>, lib: nat) {
    forall i | i in order ::
      && i < |decls|
      && var v := Value(ctx, decls[i].sym);
      && v.Some? && v.value.decl == i && Callable(decls, v.value, lib)
  }

  lemma {:induction false} BuildHolds(decls: seq<Decl>, order: seq<nat>, lib: Library)
    requires WellFormed(decls) && DistinctSymbols(decls) && Ordered(decls, order)
    requires Build(decls, order, lib).Ok?
    ensures Holds(decls, Build(decls, order, lib).ctx, order, lib.handle)
  {
    if order != [] {
      var n := |order| - 1;
      var front, last := order[..n], order[n];
      assert Ordered(decls, front) by {
        forall k | 0 <= k < |front|
          ensures front[k] < |decls| && front[k] !in front[..k]
          ensures forall d | d in decls[front[k]].deps :: d in front[..k]
        {
          assert front[..k] == order[..k];
        }
      }
      BuildHolds(decls, front, lib);
      var ctx := Build(decls, front, lib).ctx;
      var c := Closure(last, lib.handle, ctx);
      assert Callable(decls, c, lib.handle);
      forall i | i in order
        ensures i < |decls|
        ensures var v := Value(WithValue(ctx, decls[last].sym, c), decls[i].sym);
                v.Some? && v.value.decl == i && Callable(decls, v.value, lib.handle)
      {
        if i != last {
          assert i in front;
        }
      }
    }
  }

  lemma AllLoadInOrder(decls: seq<Decl>, order: seq<nat>, lib: Library)
    requires Ordered(decls, order) && Complete(decls, order)
    ensures (forall k | 0 <= k < |order| :: Loads(decls, order[k], lib)) <==>
            (forall i | 0 <= i < |decls| :: Loads(decls, i, lib))
  {
    if forall k | 0 <= k < |order| :: Loads(decls, order[k], lib) {
      forall i | 0 <= i < |decls| ensures Loads(decls, i, lib) {
        assert i in order;
      }
    }
  }

  /**
    For every set of variables without cyclic dependencies and with distinct symbols: Go's order and the fold of
    `newContext` give a context in which every variable finds its own function, and no call of any of these
    functions, however deep, misses a symbol or reaches another library.
    */
  lemma {:induction false} EveryLookupSucceeds(decls: seq<Decl>, lib: Library)
    requires WellFormed(decls) && DistinctSymbols(decls) && Acyclic(decls)
    ensures Ordered(decls, Init(decls, [])) && Complete(decls, Init(decls, []))
    ensures Build(decls, Init(decls, []), lib).Ok? <==> forall i | 0 <= i < |decls| :: Loads(decls, i, lib)
    ensures Build(decls, Init(decls, []), lib).Ok? ==>
              Holds(decls, Build(decls, Init(decls, []), lib).ctx, Init(decls, []), lib.handle)
  {
    var order := Init(decls, []);
    InitCompletesIff(decls);
    InitIsOrdered(decls, []);
    BuildSucceedsIff(decls, order, lib);
    AllLoadInOrder(decls, order, lib);
    if Build(decls, order, lib).Ok? {
      BuildHolds(decls, order, lib);
    }
  }

  // ---------- What the conditions are for ----------

  lemma {:induction false} StoredSymbols(decls: seq<Decl>, order: seq<nat>, lib: Library, key: string)
    requires forall k | 0 <= k < |order| :: order[k] < |decls|
    requires Build(decls, order, lib).Ok?
    ensures Value(Build(decls, order, lib).ctx, key).Some? <==>
            exists k | 0 <= k < |order| :: decls[order[k]].sym == key
  {
    if order != [] {
      var n := |order| - 1;
      var front := order[..n];
      assert forall k | 0 <= k < n :: front[k] == order[k];
      StoredSymbols(decls, front, lib, key);
    }
  }

  /** A context holds a symbol exactly if its variable was registered, so a closure misses what is registered later. */
  lemma {:induction false} LookupNeedsEarlierSymbol(decls: seq<Decl>, order: seq<nat>, lib: Library, l: nat)
    requires DistinctSymbols(decls) && l < |decls|
    requires forall k | 0 <= k < |order| :: order[k] < |decls|
    requires Build(decls, order, lib).Ok?
    ensures Value(Build(decls, order, lib).ctx, decls[l].sym).Some? <==> l in order
  {
    StoredSymbols(decls, order, lib, decls[l].sym);
  }

  /** Under every symbol the context holds the closure of the variable that was registered last with it. */
  lemma {:induction false} LastRegistrationWins(decls: seq<Decl>, order: seq<nat>, lib: Library, k: nat)
    requires forall j | 0 <= j < |order| :: order[j] < |decls|
    requires Build(decls, order, lib).Ok? && k < |order|
    requires forall j | k < j < |order| :: decls[order[j]].sym != decls[order[k]].sym
    ensures Value(Build(decls, order, lib).ctx, decls[order[k]].sym).Some?
    ensures Value(Build(decls, order, lib).ctx, decls[order[k]].sym).value.decl == order[k]
  {
    var n := |order| - 1;
    var front := order[..n];
    assert Build(decls, order, lib) == WithFFI(decls, order[n], Build(decls, front, lib).ctx, lib);
    if k < n {
      assert forall j | 0 <= j < n :: front[j] == order[j];
      LastRegistrationWins(decls, front, lib, k);
    }
  }

  lemma {:induction false} LastWith(decls: seq<Decl>, order: seq<nat>, k: nat) returns (m: nat)
    requires k < |order| && forall j | 0 <= j < |order| :: order[j] < |decls|
    ensures k <= m < |order| && decls[order[m]].sym == decls[order[k]].sym
    ensures forall j | m < j < |order| :: decls[order[j]].sym != decls[order[k]].sym
    decreases |order| - k
  {
    if l :| k < l < |order| && decls[order[l]].sym == decls[order[k]].sym {
      m := LastWith(decls, order, l);
    } else {
      m := k;
    }
  }

  /** So of two variables with one symbol the earlier one never gets its own closure, wherever they are registered. */
  lemma {:induction false} SharedSymbolIsShadowed(decls: seq<Decl>, order: seq<nat>, lib: Library, j: nat, k: nat)
    requires Ordered(decls, order) && Build(decls, order, lib).Ok?
    requires j < k < |order| && decls[order[j]].sym == decls[order[k]].sym
    ensures Value(Build(decls, order, lib).ctx, decls[order[j]].sym).Some?
    ensures Value(Build(decls, order, lib).ctx, decls[order[j]].sym).value.decl != order[j]
  {
    var m := LastWith(decls, order, k);
    LastRegistrationWins(decls, order, lib, m);
    if order[m] == order[j] {
      OrderedOnce(decls, order, m, j);
    }
  }

  // ---------- The code ----------

  /** `libraries`, guarded by `libraryMu`, and the loop of `newContext`. */
  class Loader {
    var libraries: map<string, Library>

    constructor ()
      ensures libraries == map[]
    {
      libraries := map[];
    }

    /** The system's loader; it may fail. */
    method LoadLibrary(path: string) returns (lib: Option<Library>) {
      if * {
        return None;
      }
      var found: Library := *;
      return Some(found);
    }

    /** A path is loaded once; from then on it gives the same library. A failed attempt leaves no trace. */
    method LoadSharedLibrary(path: string) returns (lib: Option<Library>)
      modifies this
      ensures path in old(libraries) ==> lib == Some(old(libraries)[path])
      ensures libraries == if lib.Some? then old(libraries)[path := lib.value] else old(libraries)
      ensures forall p | p in old(libraries) :: p in libraries && libraries[p] == old(libraries)[p]
    {
      if path in libraries {
        assert libraries == libraries[path := libraries[path]];
        return Some(libraries[path]);
      }
      lib := LoadLibrary(path);
      if lib.Some? {
        libraries := libraries[path := lib.value];
      }
    }

    method NewContext(path: string, decls: seq<Decl>, withFFIs: seq<nat>) returns (r: Result)
      requires forall k | 0 <= k < |withFFIs| :: withFFIs[k] < |decls|
      modifies this
      ensures path in libraries ==> r == Build(decls, withFFIs, libraries[path])
      ensures path !in libraries ==> r == Err(NoLibrary) && libraries == old(libraries)
      ensures forall p | p in old(libraries) :: p in libraries && libraries[p] == old(libraries)[p]
    {
      var lib := LoadSharedLibrary(path);
      if lib.None? {
        return Err(NoLibrary);
      }
      r := Ok(Background);
      for k := 0 to |withFFIs|
        invariant r == Build(decls, withFFIs[..k], lib.value) && r.Ok?
      {
        assert withFFIs[..k + 1][..k] == withFFIs[..k];
        r := WithFFI(decls, withFFIs[k], r.ctx, lib.value);
        if r.Err? {
          BuildStopsAtError(decls, withFFIs, lib.value, k + 1);
          return;
        }
      }
      assert withFFIs[..|withFFIs|] == withFFIs;
    }
  }

  lemma {:induction false} BuildStopsAtError(decls: seq<Decl>, order: seq<nat>, lib: Library, k: nat)
    requires forall j | 0 <= j < |order| :: order[j] < |decls|
    requires k <= |order| && Build(decls, order[..k], lib).Err?
    ensures Build(decls, order, lib) == Build(decls, order[..k], lib)
    decreases |order|
  {
    if k == |order| {
      assert order[..k] == order;
    } else {
      var front := order[..|order| - 1];
      assert front[..k] == order[..k];
      BuildStopsAtError(decls, front, lib, k);
    }
  }
}
