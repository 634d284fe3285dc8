/**
  The core's reader behind the C++ and the Go reader: `StdReader` over `FuturesAsyncReader`, which reads a stream that
  opens its request when it is first read.

  Without a chunk size there is one range to open, and it is used up before the request is sent. So a request that
  fails to open leaves a reader that is spent: it answers every read with zero bytes, as at the end of the file, until
  a seek makes a new stream. A read that fails after the request was opened keeps its place.
  */
module CoreReader {
  import opened Common

  datatype Phase = Unopened | Opened | Spent

  datatype SeekDir = Beg | Cur | End

  /** The position of the next byte, and how the stream stands. */
  datatype Standing = Standing(pos: nat, phase: Phase)

  /** A reader is spent only while it has something left to read. */
  predicate InRange(content: seq<Byte>, s: Standing) {
    s.pos <= |content| && (s.phase.Spent? ==> s.pos < |content|)
  }

  /** What one read into `room` bytes may do: short counts are allowed, and so are errors. */
  predicate ReadStep(content: seq<Byte>, s: Standing, room: nat, n: nat, threw: bool, s': Standing) {
    && n <= room && (threw ==> n == 0)
    && s'.pos == s.pos + n <= |content|
    && match s.phase
       case Spent => n == 0 && !threw && s'.phase.Spent?
       case Opened => s'.phase.Opened? && (n == 0 && !threw ==> s.pos == |content|)
       case Unopened =>
         // nothing is opened at the end of the file
         if s.pos == |content| then n == 0 && !threw && s'.phase.Unopened?
         else if threw then !s'.phase.Unopened?
         else n > 0 && s'.phase.Opened?
  }

  /** The read found its request impossible to open. */
  predicate OpenFails(s: Phase, s': Phase) {
    s.Unopened? && s'.Spent?
  }

  /** Positions outside the file are refused; a seek within the bytes at hand keeps the stream. */
  predicate SeekStep(content: seq<Byte>, s: Standing, target: int, newPos: Option<nat>, s': Standing) {
    if 0 <= target <= |content| then
      newPos == Some(target) && s'.pos == target && (s'.phase.Unopened? || (s.phase.Opened? && s'.phase.Opened?))
    else newPos == None && s' == s
  }

  /** How a turn of a loop over a reader ended: the loop goes on, or it met the end of the file or an error. */
  datatype Ended = Goes | MetEnd | MetError

  class StdReader {
    const content: seq<Byte>
    var pos: nat
    var phase: Phase
    var failures: nat          // how many reads have failed

    constructor (content: seq<Byte>)
      ensures this.content == content && At() == Standing(0, Unopened)
    {
      this.content := content;
      pos, phase, failures := 0, Unopened, 0;
    }

    ghost predicate Valid()
      reads this
    {
      InRange(content, At())
    }

    ghost function At(): Standing
      reads this
    {
      Standing(pos, phase)
    }

    /** Opens the request if that is not done yet. */
    method Open() returns (ok: bool)
      requires Valid() && pos < |content| && !phase.Spent?
      modifies this`phase
      ensures if ok then phase.Opened? else OpenFails(old(phase), phase)
    {
      if phase.Opened? {
        return true;
      }
      // the range is used up whatever becomes of the request
      phase := Spent;
      ok := *;
      if ok {
        phase := Opened;
      }
    }

    /** Reads into `buf[from..]`. */
    method ReadInto(buf: array<Byte>, from: nat) returns (n: nat, threw: bool)
      requires Valid() && from < buf.Length
      modifies this, buf
      ensures Valid() && from + n <= buf.Length && ReadStep(content, old(At()), buf.Length - from, n, threw, At())
      ensures buf[..from + n] == old(buf[..from]) + content[old(pos)..pos]
      ensures failures == old(failures) + if threw then 1 else 0
    {
      n, threw := 0, false;
      if phase.Spent? || (phase.Unopened? && pos == |content|) {
        return;
      }
      if pos < |content| {
        var ok := Open();
        if !ok {
          failures := failures + 1;
          return 0, true;
        }
      }
      if * {
        failures := failures + 1;
        return 0, true;
      }
      if pos < |content| {
        n :| 1 <= n <= buf.Length - from && n <= |content| - pos;
        CopyInto(buf, from, content[pos..pos + n]);
        pos := pos + n;
      }
    }

    method Seek(off: int, dir: SeekDir) returns (newPos: Option<nat>)
      requires Valid()
      modifies this`pos, this`phase
      ensures Valid() && SeekStep(content, old(At()), Target(|content|, old(pos), off, dir), newPos, At())
      ensures dir.Beg? ==> newPos == if 0 <= off <= |content| then Some(off) else None
      ensures dir.Cur? ==> newPos == if 0 <= old(pos) + off <= |content| then Some(old(pos) + off) else None
      ensures dir.End? ==> newPos == if -|content| <= off <= 0 then Some(|content| + off) else None
      ensures if newPos.Some? then pos == newPos.value else At() == old(At())
    {
      var target := Target(|content|, pos, off, dir);
      if target < 0 || target > |content| {
        return None;
      }
      pos := target;
      var inBuffer: bool := *;
      if !(phase.Opened? && inBuffer) {
        phase := Unopened;
      }
      newPos := Some(target);
    }
  }

  function Target(length: nat, pos: nat, off: int, dir: SeekDir): int {
    match dir
    case Beg => off
    case Cur => pos + off
    case End => length + off
  }
}
