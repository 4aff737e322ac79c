/**
  * The read-ahead relay: while one buffer is being written, the next read fills the other one. Whatever
  * the order in which reads and writes complete, it does what the plain copy loop does.
  */
module ReadAhead {
  import opened Core

  /** What a read yields; no bytes means the end of the input. */
  datatype Read = Data(bytes: seq<byte>) | ReadFails

  datatype IoError = ReadError | WriteError | FlushError

  /** One step of the two pending operations: some more bytes are written, or the read completes. */
  datatype Poll = Wrote(n: nat) | ReadReady

  /** How the write of one buffer goes: these steps, and then it fails or takes whatever is left. */
  datatype Phase = Phase(polls: seq<Poll>, fails: bool)

  datatype Outcome = Outcome(output: seq<byte>, result: Result<nat, IoError>)

  function Min(a: nat, b: nat): nat {
    if a <= b then a else b
  }

  /** The k-th read; the input ends when the list does. */
  function ReadAt(script: seq<Read>, k: nat): Read {
    if k < |script| then script[k] else Data([])
  }

  /** How much of a buffer of the given length the first `j` steps write. */
  function Progress(polls: seq<Poll>, j: nat, length: nat): (n: nat)
    requires j <= |polls|
    ensures n <= length
  {
    if j == 0 then 0
    else Min(length, Progress(polls, j - 1, length) + if polls[j - 1].Wrote? then polls[j - 1].n else 0)
  }

  /** The write of a buffer of this length succeeds. */
  predicate Writes(phase: Phase, length: nat) {
    !phase.fails || Progress(phase.polls, |phase.polls|, length) == length
  }

  lemma {:induction false} ProgressStays(polls: seq<Poll>, i: nat, j: nat, length: nat)
    requires i <= j <= |polls| && Progress(polls, i, length) == length
    ensures Progress(polls, j, length) == length
  {
    if i < j {
      ProgressStays(polls, i, j - 1, length);
    }
  }

  // ---------------------------------------------------------------- the plain loop

  /** Copying from the k-th read on, when `output` has been written and `copied` bytes counted. */
  function Copy(
    script: seq<Read>, k: nat, phases: nat -> Phase, flushes: bool, output: seq<byte>, copied: nat): Outcome
    decreases |script| - k
  {
    match ReadAt(script, k)
    case ReadFails => Outcome(output, Err(ReadError))
    case Data(bytes) =>
      if bytes == [] then Outcome(output, if flushes then Ok(copied) else Err(FlushError))
      else if Writes(phases(k), |bytes|) then
        Copy(script, k + 1, phases, flushes, output + bytes, copied + |bytes|)
      else
        Outcome(output + bytes[..Progress(phases(k).polls, |phases(k).polls|, |bytes|)], Err(WriteError))
  }

  method RelayCopy(script: seq<Read>, phases: nat -> Phase, flushes: bool)
    returns (output: seq<byte>, result: Result<nat, IoError>)
    ensures Outcome(output, result) == Copy(script, 0, phases, flushes, [], 0)
  {
    output := [];
    var copied: nat, position: nat := 0, 0;
    while true
      invariant Copy(script, 0, phases, flushes, [], 0) == Copy(script, position, phases, flushes, output, copied)
      decreases |script| - position
    {
      var buffer: seq<byte> := [];
      var read := ReadAt(script, position);
      if read.ReadFails? {
        return output, Err(ReadError);
      }
      buffer := read.bytes;
      if |buffer| == 0 {
        break;
      }
      var phase := phases(position);
      if !Writes(phase, |buffer|) {
        return output + buffer[..Progress(phase.polls, |phase.polls|, |buffer|)], Err(WriteError);
      }
      output := output + buffer;
      copied := copied + |buffer|;
      position := position + 1;
    }
    result := if flushes then Ok(copied) else Err(FlushError);
  }

  // ---------------------------------------------------------------- the overlapped loop

  /** The two buffers and the reader's position. */
  class Ahead {
    const buffers: array<seq<byte>>
    const script: seq<Read>
    var position: nat
    var output: seq<byte>

    constructor (script: seq<Read>)
      ensures fresh(buffers) && buffers.Length == 2 && this.script == script && position == 0 && output == []
      ensures buffers[0] == [] && buffers[1] == []
    {
      this.script := script;
      buffers := new seq<byte>[2](_ => []);
      position, output := 0, [];
    }

    /** Reads into one buffer and leaves the other alone. */
    method ReadInto(slot: nat) returns (read: Read)
      requires buffers.Length == 2 && slot < 2 && buffers[slot] == []
      modifies this`position, buffers
      ensures read == ReadAt(script, old(position)) && position == old(position) + 1
      ensures read.Data? ==> buffers[slot] == read.bytes
      ensures buffers[1 - slot] == old(buffers[1 - slot])
    {
      read := ReadAt(script, position);
      position := position + 1;
      if read.Data? {
        buffers[slot] := read.bytes;
      }
    }

    /** Writes the current buffer while the other one is read, in the order the phase gives. */
    method Overlap(current: nat, phase: Phase) returns (written: bool, read: Read)
      requires buffers.Length == 2 && current < 2 && buffers[1 - current] == []
      modifies this, buffers
      ensures buffers[current] == old(buffers[current])
      ensures written == Writes(phase, |buffers[current]|)
      ensures written ==> output == old(output) + buffers[current]
      ensures !written ==>
        output == old(output) + buffers[current][..Progress(phase.polls, |phase.polls|, |buffers[current]|)]
      ensures written ==> read == ReadAt(script, old(position)) && position == old(position) + 1
      ensures written && read.Data? ==> buffers[1 - current] == read.bytes
    {
      var next, length, sent, j := 1 - current, |buffers[current]|, 0, 0;
      var early: Option<Read> := None;
      ghost var chunk, base := buffers[current], output;
      ConcatEmpty(output);
      while sent < length && j < |phase.polls|
        invariant j <= |phase.polls| && sent == Progress(phase.polls, j, length)
        invariant buffers[current] == chunk && output == base + chunk[..sent]
        invariant early.None? ==> position == old(position) && buffers[next] == []
        invariant early.Some? ==> early.value == ReadAt(script, old(position)) && position == old(position) + 1
        invariant early.Some? && early.value.Data? ==> buffers[next] == early.value.bytes
      {
        match phase.polls[j] {
          case Wrote(n) =>
            var more := Min(n, length - sent);
            SliceGrows(base, chunk, sent, more);
            output := output + buffers[current][sent..sent + more];
            sent := sent + more;
          case ReadReady =>
            if early.None? {
              var result := ReadInto(next);
              early := Some(result);
            }
        }
        j := j + 1;
      }
      if sent == length {
        ProgressStays(phase.polls, j, |phase.polls|, length);
      }
      written := sent == length || !phase.fails;
      if !written {
        return written, ReadFails;
      }
      SliceGrows(base, chunk, sent, length - sent);
      TakeAll(chunk);
      output := output + buffers[current][sent..length];
      if early.Some? {
        read := early.value;
      } else {
        read := ReadInto(next);
      }
    }
  }

  lemma {:induction false} SliceGrows(base: seq<byte>, chunk: seq<byte>, sent: nat, more: nat)
    requires sent + more <= |chunk|
    ensures base + chunk[..sent] + chunk[sent..sent + more] == base + chunk[..sent + more]
  {
  }

  /** The two-buffer relay does what the plain loop does, for every order of completion. */
  method RelayCopyLocalToQuic(script: seq<Read>, phases: nat -> Phase, flushes: bool)
    returns (output: seq<byte>, result: Result<nat, IoError>)
    ensures Outcome(output, result) == Copy(script, 0, phases, flushes, [], 0)
  {
    var ahead := new Ahead(script);
    var current: nat, copied: nat := 0, 0;
    var read := ahead.ReadInto(current);
    if read.ReadFails? {
      return [], Err(ReadError);
    }
    ghost var k := 0;
    while |ahead.buffers[current]| != 0
      invariant fresh(ahead) && fresh(ahead.buffers) && ahead.buffers.Length == 2 && ahead.script == script
      invariant current < 2 && ahead.position == k + 1
      invariant ReadAt(script, k) == Data(ahead.buffers[current])
      invariant Copy(script, 0, phases, flushes, [], 0) == Copy(script, k, phases, flushes, ahead.output, copied)
      decreases |script| - k
    {
      var next, length := 1 - current, |ahead.buffers[current]|;
      ahead.buffers[next] := [];
      var written, following := ahead.Overlap(current, phases(ahead.position - 1));
      if !written {
        return ahead.output, Err(WriteError);
      }
      k := k + 1;
      if following.ReadFails? {
        return ahead.output, Err(ReadError);
      }
      copied := copied + length;
      current := next;
    }
    output := ahead.output;
    result := if flushes then Ok(copied) else Err(FlushError);
  }

  // ---------------------------------------------------------------- what both achieve

  /** The bytes read from the k-th read on, until the input ends or fails. */
  function Input(script: seq<Read>, k: nat): seq<byte>
    decreases |script| - k
  {
    var read := ReadAt(script, k);
    if read.Data? && read.bytes != [] then read.bytes + Input(script, k + 1) else []
  }

  /** The input ends without a failing read. */
  predicate EndsCleanly(script: seq<Read>, k: nat)
    decreases |script| - k
  {
    var read := ReadAt(script, k);
    read.Data? && (read.bytes == [] || EndsCleanly(script, k + 1))
  }

  /** Every buffer of the input is written. */
  predicate AllWrite(script: seq<Read>, k: nat, phases: nat -> Phase)
    decreases |script| - k
  {
    var read := ReadAt(script, k);
    read.Data? && read.bytes != [] ==> Writes(phases(k), |read.bytes|) && AllWrite(script, k + 1, phases)
  }

  /**
    * What is written is always a prefix of what was read; it is all of it unless a write fails; the
    * result is the number of bytes exactly when reading, writing and flushing all succeed, and a failed
    * write is reported in preference to a failed read.
    */
  lemma {:induction false} CopyOutcome(
    script: seq<Read>, k: nat, phases: nat -> Phase, flushes: bool, output: seq<byte>, copied: nat)
    ensures var end := Copy(script, k, phases, flushes, output, copied);
            var all := output + Input(script, k);
            && end.output <= all
            && (AllWrite(script, k, phases) ==> end.output == all)
            && end.result ==
                 if !AllWrite(script, k, phases) then Err(WriteError)
                 else if !EndsCleanly(script, k) then Err(ReadError)
                 else if !flushes then Err(FlushError)
                 else Ok(copied + |Input(script, k)|)
    decreases |script| - k
  {
    var read := ReadAt(script, k);
    if read.Data? && read.bytes != [] {
      var bytes, rest := read.bytes, Input(script, k + 1);
      ConcatAssociative(output, bytes, rest);
      if Writes(phases(k), |bytes|) {
        CopyOutcome(script, k + 1, phases, flushes, output + bytes, copied + |bytes|);
      }
    } else {
      ConcatEmpty(output);
    }
  }

  /** The bytes that the first `j` steps offer to write. */
  function OfferedBy(polls: seq<Poll>, j: nat): nat
    requires j <= |polls|
  {
    if j == 0 then 0 else OfferedBy(polls, j - 1) + if polls[j - 1].Wrote? then polls[j - 1].n else 0
  }

  lemma {:induction false} ProgressIsSum(polls: seq<Poll>, j: nat, length: nat)
    requires j <= |polls|
    ensures Progress(polls, j, length) == Min(length, OfferedBy(polls, j))
  {
    if j > 0 {
      ProgressIsSum(polls, j - 1, length);
    }
  }

  /** The bytes of the reads from the k-th up to the m-th. */
  function InputBefore(script: seq<Read>, k: nat, m: nat): seq<byte>
    requires k <= m
    decreases m - k
  {
    if k == m || ReadAt(script, k).ReadFails? then [] else ReadAt(script, k).bytes + InputBefore(script, k + 1, m)
  }

  /** The write of the m-th read is the first that fails: it took less than there was, and then an error. */
  ghost predicate FirstFailed(script: seq<Read>, k: nat, phases: nat -> Phase, m: nat) {
    && k <= m && ReadAt(script, m).Data?
    && phases(m).fails && OfferedBy(phases(m).polls, |phases(m).polls|) < |ReadAt(script, m).bytes|
    && forall i: nat :: k <= i < m ==>
         && ReadAt(script, i).Data? && ReadAt(script, i).bytes != [] && Writes(phases(i), |ReadAt(script, i).bytes|)
  }

  /** When a write fails, everything read before it is written, and of its own bytes those that the steps offered. */
  lemma {:induction false} FailedOutput(
    script: seq<Read>, k: nat, phases: nat -> Phase, flushes: bool, output: seq<byte>, copied: nat) returns (m: nat)
    requires !AllWrite(script, k, phases)
    ensures FirstFailed(script, k, phases, m)
    ensures Copy(script, k, phases, flushes, output, copied).output
         == output +
            (InputBefore(script, k, m) + ReadAt(script, m).bytes[..OfferedBy(phases(m).polls, |phases(m).polls|)])
    decreases |script| - k
  {
    var bytes := ReadAt(script, k).bytes;
    if Writes(phases(k), |bytes|) {
      m := FailedOutput(script, k + 1, phases, flushes, output + bytes, copied + |bytes|);
      var last := ReadAt(script, m).bytes[..OfferedBy(phases(m).polls, |phases(m).polls|)];
      var before := InputBefore(script, k + 1, m);
      ConcatAssociative(output, bytes, before + last);
      ConcatAssociative(bytes, before, last);
    } else {
      m := k;
      ProgressIsSum(phases(k).polls, |phases(k).polls|, |bytes|);
    }
  }

  /** The same writes without any read completing early. */
  function Sequential(polls: seq<Poll>): seq<Poll> {
    if polls == [] then []
    else
      var before := Sequential(polls[..|polls| - 1]);
      var last := polls[|polls| - 1];
      if last.Wrote? then before + [last] else before
  }

  /** When the reads complete makes no difference to a write. */
  lemma {:induction false} SequentialProgress(polls: seq<Poll>, length: nat)
    ensures Progress(Sequential(polls), |Sequential(polls)|, length) == Progress(polls, |polls|, length)
  {
    if polls != [] {
      var n := |polls| - 1;
      var before := Sequential(polls[..n]);
      SequentialProgress(polls[..n], length);
      ProgressPrefix(polls, polls[..n], n, length);
      if polls[n].Wrote? {
        ProgressPrefix(before + [polls[n]], before, |before|, length);
      }
    }
  }

  lemma {:induction false} ProgressPrefix(polls: seq<Poll>, prefix: seq<Poll>, j: nat, length: nat)
    requires j <= |prefix| && prefix <= polls
    ensures Progress(polls, j, length) == Progress(prefix, j, length)
  {
    if j > 0 {
      ProgressPrefix(polls, prefix, j - 1, length);
    }
  }

  /** Two schedules that make the same writes give the same outcome, whenever their reads complete. */
  lemma {:induction false} InterleavingIrrelevant(
    script: seq<Read>, k: nat, phases: nat -> Phase, others: nat -> Phase, flushes: bool, output: seq<byte>, copied: nat)
    requires forall n: nat :: others(n).fails == phases(n).fails
    requires forall n: nat :: Sequential(others(n).polls) == Sequential(phases(n).polls)
    ensures Copy(script, k, phases, flushes, output, copied) == Copy(script, k, others, flushes, output, copied)
    decreases |script| - k
  {
    var read := ReadAt(script, k);
    if read.Data? && read.bytes != [] {
      SequentialProgress(phases(k).polls, |read.bytes|);
      SequentialProgress(others(k).polls, |read.bytes|);
      if Writes(phases(k), |read.bytes|) {
        InterleavingIrrelevant(script, k + 1, phases, others, flushes, output + read.bytes, copied + |read.bytes|);
      }
    }
  }
}
