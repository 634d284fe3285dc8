/**
  `Reader.Read` of the Go binding: it calls the native read until the buffer is full, nothing came, or an
  error came.
  */
module GoReader {
  import opened Common
  import opened CoreReader

  datatype Error = Eof | Native

  datatype Call = Call(len: nat, data: seq<Byte>, err: Option<Error>)

  /**
    What a `Read` of a buffer of length `len` may do: consecutive bytes of the file, as many as the buffer takes;
    fewer only at the end of the file, with a native error, or from a spent reader. `io.EOF` is reported exactly if a
    buffer that is not empty got nothing and no native error came.
    */
  ghost predicate Step(content: seq<Byte>, s: Standing, c: Call, s': Standing) {
    && InRange(content, s') && s.pos <= s'.pos && c.data == content[s.pos..s'.pos] && |c.data| <= c.len
    && (c.err == Some(Eof) <==> |c.data| == 0 < c.len && c.err != Some(Native))
    && (|c.data| < c.len && c.err != Some(Native) ==> s'.pos == |content| || s.phase.Spent?)
    && (c.len == 0 ==> c.err.None? && s' == s)
    && PhaseStep(s, c, s')
  }

  /** A spent reader stays so; a reader becomes spent only by an error of its first native read. */
  ghost predicate PhaseStep(s: Standing, c: Call, s': Standing) {
    && (s.phase.Spent? ==> s' == s && c.err != Some(Native))
    && (s.phase.Opened? ==> s'.phase.Opened?)
    && (OpenFails(s.phase, s'.phase) ==> s'.pos == s.pos && c.err == Some(Native))
  }

  method Read(r: StdReader, buf: array<Byte>) returns (n: nat, err: Option<Error>)
    requires r.Valid()
    modifies r, buf
    ensures r.Valid() && n <= buf.Length
    ensures Step(r.content, old(r.At()), Call(buf.Length, buf[..n], err), r.At())
    ensures err == Some(Native) <==> r.failures != old(r.failures)
  {
    if buf.Length == 0 {
      return 0, None;
    }
    n := 0;
    var size, failed := 0, false;
    err := None;
    ghost var start := r.At();
    while true
      invariant r.Valid() && n < buf.Length && r.pos == start.pos + n
      invariant buf[..n] == r.content[start.pos..r.pos]
      invariant if n == 0 then r.At() == start else r.phase.Opened? && !start.phase.Spent?
      invariant err.None? && r.failures == old(r.failures)
      decreases buf.Length - n
    {
      ghost var before := r.pos;
      size, failed := r.ReadInto(buf, n);
      assert r.content[start.pos..before] + r.content[before..r.pos] == r.content[start.pos..r.pos];
      n := n + size;
      if failed {
        err := Some(Native);
      }
      if size == 0 || err.Some? || n >= buf.Length {
        break;
      }
    }
    if n == 0 && err.None? {
      err := Some(Eof);
    }
  }

  // ---------- Reading a whole file ----------

  ghost predicate IsRun(content: seq<Byte>, states: seq<Standing>, run: seq<Call>) {
    && |states| == |run| + 1 && InRange(content, states[0])
    && forall i | 0 <= i < |run| :: StepAt(content, states, run, i)
  }

  ghost predicate StepAt(content: seq<Byte>, states: seq<Standing>, run: seq<Call>, i: nat)
    requires i < |run| < |states|
  {
    Step(content, states[i], run[i], states[i + 1])
  }

  /** All bytes that the first `n` calls returned, with or without an error beside them. */
  function Data(run: seq<Call>, n: nat): seq<Byte>
    requires n <= |run|
  {
    if n == 0 then [] else Data(run, n - 1) + run[n - 1].data
  }

  /** Whatever errors come between, the calls return consecutive bytes of the file: none is lost or returned twice. */
  lemma {:induction false} DataIsConsecutive(content: seq<Byte>, states: seq<Standing>, run: seq<Call>, n: nat)
    requires IsRun(content, states, run) && n <= |run|
    ensures InRange(content, states[n]) && states[0].pos <= states[n].pos
    ensures Data(run, n) == content[states[0].pos..states[n].pos]
  {
    if n > 0 {
      DataIsConsecutive(content, states, run, n - 1);
      assert StepAt(content, states, run, n - 1);
      var first, mid, last := states[0].pos, states[n - 1].pos, states[n].pos;
      assert content[first..mid] + content[mid..last] == content[first..last];
    }
  }

  /** Without a seek between, a reader is spent exactly if some call failed to open its request. */
  lemma {:induction false} SpentIff(content: seq<Byte>, states: seq<Standing>, run: seq<Call>, n: nat)
    requires IsRun(content, states, run) && n <= |run| && !states[0].phase.Spent?
    ensures states[n].phase.Spent? <==> exists i | 0 <= i < n :: OpenFails(states[i].phase, states[i + 1].phase)
  {
    if n > 0 {
      SpentIff(content, states, run, n - 1);
      assert StepAt(content, states, run, n - 1);
      if states[n].phase.Spent? && !states[n - 1].phase.Spent? {
        assert OpenFails(states[n - 1].phase, states[n - 1 + 1].phase);
      } else if i :| 0 <= i < n && OpenFails(states[i].phase, states[i + 1].phase) {
        assert i == n - 1 || states[n - 1].phase.Spent?;
      }
    }
  }

  /**
    Whatever buffer lengths a caller chooses and however often errors come between: the calls up to an end of file
    together return the whole rest of the file if and only if none of them failed to open the request.
    */
  lemma {:induction false} ReadUntilEofIff(content: seq<Byte>, states: seq<Standing>, run: seq<Call>)
    requires IsRun(content, states, run) && !states[0].phase.Spent?
    requires run != [] && run[|run| - 1].err == Some(Eof)
    ensures Data(run, |run|) <= content[states[0].pos..]
    ensures Data(run, |run|) == content[states[0].pos..] <==>
            !exists i | 0 <= i < |run| :: OpenFails(states[i].phase, states[i + 1].phase)
  {
    var n := |run|;
    DataIsConsecutive(content, states, run, n);
    SpentIff(content, states, run, n);
    assert StepAt(content, states, run, n - 1);
    assert states[n].phase.Spent? || states[n].pos == |content|;
    assert content[states[0].pos..states[n].pos] == content[states[0].pos..][..states[n].pos - states[0].pos];
  }

  /** A file that is not empty can look empty: an error, and then the end of the file. */
  lemma {:induction false} FailedOpenLooksEmpty(content: seq<Byte>, len: nat)
    returns (states: seq<Standing>, run: seq<Call>)
    requires content != [] && len > 0
    ensures IsRun(content, states, run) && states[0] == Standing(0, Unopened)
    ensures run == [Call(len, [], Some(Native)), Call(len, [], Some(Eof))]
  {
    states := [Standing(0, Unopened), Standing(0, Spent), Standing(0, Spent)];
    run := [Call(len, [], Some(Native)), Call(len, [], Some(Eof))];
  }
}
