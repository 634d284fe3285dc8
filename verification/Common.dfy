/** Shared vocabulary: optional values and byte sequences cut into pieces. */
module Common {

  datatype Option<+T> = None | Some(value: T)

  type Byte = bv8

  function Min(a: int, b: int): int {
    if a <= b then a else b
  }

  /** All pieces joined, in order. */
  function Flatten<T>(pieces: seq<seq<T>>): seq<T> {
    if pieces == [] then [] else pieces[0] + Flatten(pieces[1..])
  }

  lemma {:induction false} FlattenConcat<T>(a: seq<seq<T>>, b: seq<seq<T>>)
    ensures Flatten(a + b) == Flatten(a) + Flatten(b)
  {
    if a == [] {
      assert a + b == b;
    } else {
      FlattenConcat(a[1..], b);
      assert (a + b)[1..] == a[1..] + b;
      Associative(a[0], Flatten(a[1..]), Flatten(b));
    }
  }

  lemma Associative<T>(a: seq<T>, b: seq<T>, c: seq<T>)
    ensures (a + b) + c == a + (b + c)
  {
  }

  lemma FlattenCons<T>(piece: seq<T>, pieces: seq<seq<T>>)
    ensures Flatten([piece] + pieces) == piece + Flatten(pieces)
  {
    assert ([piece] + pieces)[1..] == pieces;
  }

  lemma FlattenOne<T>(piece: seq<T>)
    ensures Flatten([piece]) == piece
  {
    assert Flatten([piece]) == piece + Flatten([]);
  }

  lemma FlattenAppend<T>(a: seq<seq<T>>, piece: seq<T>)
    ensures Flatten(a + [piece]) == Flatten(a) + piece
  {
    FlattenConcat(a, [piece]);
    FlattenOne(piece);
  }

  /** Copies `source` into an array, behind its first `at` elements. */
  method CopyInto<T>(destination: array<T>, at: nat, source: seq<T>)
    requires at + |source| <= destination.Length
    modifies destination
    ensures destination[..at + |source|] == old(destination[..at]) + source
  {
    forall j | at <= j < at + |source| {
      destination[j] := source[j - at];
    }
    assert destination[at..at + |source|] == source;
    assert destination[..at] == old(destination[..at]);
  }
}
