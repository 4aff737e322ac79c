/**
  * Sending one grouped transmit as ordinary datagrams: bounded attempts against a kernel that may
  * take any prefix, then recovery of the owned suffix until it is sent, refused or out of time.
  */
module PlainSend {
  import opened Core
  import opened PlainBatch

  const MAX_CONSECUTIVE_INTERRUPTS: nat := 8

  /** The recovery budget of one millisecond, in nanoseconds. */
  const SUFFIX_COMPLETION_BUDGET: nat := 1_000_000

  // ---------------------------------------------------------------- the environment

  /** What one `sendmmsg` call answers: the lengths of the messages it took, or an error. */
  datatype SendReply = Sent(lengths: seq<nat>) | Failed(kind: ErrorKind)

  datatype PollReply =
    | NoEvents
    | Events(out: bool, err: bool, nval: bool, hup: bool, pending: Result<Option<ErrorKind>, ErrorKind>)
    | PollInterrupted
    | PollFailed(kind: ErrorKind)

  /** One `sendmmsg` call: what was offered and what was answered. */
  datatype Attempt = Attempt(offered: seq<Datagram>, reply: SendReply) {
    /** The datagrams accepted in full are a prefix of those offered. */
    function Accepted(): (count: nat)
      ensures count <= |offered|
    {
      if reply.Sent? && |reply.lengths| <= |offered| then FullPrefix(reply.lengths, offered) else 0
    }
  }

  /** The replies in the log are those of the script, in order. */
  ghost predicate Scripted(log: seq<Attempt>, replies: nat -> SendReply) {
    log == [] || (Scripted(log[..|log| - 1], replies) && log[|log| - 1].reply == replies(|log| - 1))
  }

  lemma {:induction false} ScriptedAt(log: seq<Attempt>, replies: nat -> SendReply, i: nat)
    requires Scripted(log, replies) && i < |log|
    ensures log[i].reply == replies(i)
  {
    if i < |log| - 1 {
      ScriptedAt(log[..|log| - 1], replies, i);
    }
  }

  /**
    * Everything outside the sender: arbitrary replies, socket readiness, poll results and clock
    * readings, consumed in order. The log records every `sendmmsg` call.
    */
  class Kernel {
    const sendReplies: nat -> SendReply
    const readiness: nat -> bool
    const pollReplies: nat -> PollReply
    const clock: nat -> int
    var sends: nat
    var probes: nat
    var polls: nat
    var ticks: nat
    ghost var log: seq<Attempt>

    constructor (sendReplies: nat -> SendReply, readiness: nat -> bool, pollReplies: nat -> PollReply, clock: nat -> int)
      ensures Valid() && log == [] && sends == probes == polls == ticks == 0
      ensures this.sendReplies == sendReplies && this.readiness == readiness
      ensures this.pollReplies == pollReplies && this.clock == clock
    {
      this.sendReplies, this.readiness, this.pollReplies, this.clock := sendReplies, readiness, pollReplies, clock;
      sends, probes, polls, ticks, log := 0, 0, 0, 0, [];
    }

    /** Every call was answered from the script. */
    ghost predicate Valid() reads this`sends, this`log {
      sends == |log| && Scripted(log, sendReplies)
    }

    ghost predicate Reaches(instant: int) {
      exists i: nat :: clock(i) >= instant
    }

    /** The clock never goes back, and no instant is out of its reach. */
    ghost predicate ClockRuns() {
      (forall i: nat, j: nat :: i <= j ==> clock(i) <= clock(j)) && (forall instant :: Reaches(instant))
    }

    method Now() returns (instant: int)
      modifies this`ticks
      ensures ticks == old(ticks) + 1 && instant == clock(old(ticks))
    {
      instant := clock(ticks);
      ticks := ticks + 1;
    }

    method Sendmmsg(messages: seq<Datagram>) returns (reply: SendReply)
      requires Valid()
      modifies this`sends, this`log
      ensures Valid()
      ensures sends == old(sends) + 1 && reply == sendReplies(old(sends))
      ensures log == old(log) + [Attempt(messages, reply)]
    {
      reply := sendReplies(sends);
      sends := sends + 1;
      ConcatSplit(log, [Attempt(messages, reply)]);
      log := log + [Attempt(messages, reply)];
    }

    method Ready() returns (ready: bool)
      modifies this`probes
      ensures probes == old(probes) + 1 && ready == readiness(old(probes))
    {
      ready := readiness(probes);
      probes := probes + 1;
    }

    method Poll() returns (reply: PollReply)
      modifies this`polls
      ensures polls == old(polls) + 1 && reply == pollReplies(old(polls))
    {
      reply := pollReplies(polls);
      polls := polls + 1;
    }
  }

  class PlainSendCounters {
    var sendmmsgCalls: nat
    var sendmmsgDatagrams: nat
    var partialPrefixes: nat
  }

  // ---------------------------------------------------------------- one attempt

  /** Fills a fixed array of message slots, failing on the first push beyond its capacity. */
  method FillSlots(datagrams: seq<Datagram>) returns (r: Result<seq<Datagram>, ErrorKind>)
    ensures r == if |datagrams| <= MAX_PLAIN_BATCH_DATAGRAMS then Ok(datagrams) else Err(InvalidInput)
  {
    var slots: seq<Datagram> := [];
    for i := 0 to |datagrams|
      invariant slots == datagrams[..i] && i <= MAX_PLAIN_BATCH_DATAGRAMS
    {
      if |slots| == MAX_PLAIN_BATCH_DATAGRAMS {
        return Err(InvalidInput);
      }
      slots := slots + [datagrams[i]];
    }
    assert datagrams[..|datagrams|] == datagrams;
    r := Ok(slots);
  }

  /** What the sender makes of one reply to `count` messages. */
  function ReplyResult(reply: SendReply, count: nat): Result<seq<nat>, ErrorKind> {
    match reply
    case Failed(kind) => Err(kind)
    case Sent(lengths) => if |lengths| > count then Err(InvalidData) else Ok(lengths)
  }

  method AttemptOnce(kernel: Kernel, counters: PlainSendCounters, transmit: PlainTransmit)
    returns (r: Result<seq<nat>, ErrorKind>, ghost call: Attempt)
    requires kernel.Valid() && |transmit.Datagrams()| <= MAX_PLAIN_BATCH_DATAGRAMS
    modifies kernel`sends, kernel`log, counters`sendmmsgCalls
    ensures kernel.Valid() && counters.sendmmsgCalls == old(counters.sendmmsgCalls) + 1
    ensures kernel.sends == old(kernel.sends) + 1 && kernel.log == old(kernel.log) + [call]
    ensures call == Attempt(transmit.Datagrams(), kernel.sendReplies(old(kernel.sends)))
    ensures r == ReplyResult(call.reply, |transmit.Datagrams()|)
  {
    counters.sendmmsgCalls := counters.sendmmsgCalls + 1;
    var messages := FillSlots(transmit.Datagrams());
    var reply := kernel.Sendmmsg(messages.value);
    call := Attempt(messages.value, reply);
    r := ReplyResult(reply, |messages.value|);
  }

  /** The calls of one attempt: all offer the same datagrams, and only the last may take any. */
  ghost predicate SameOffer(calls: seq<Attempt>, datagrams: seq<Datagram>) {
    && (forall i :: 0 <= i < |calls| ==> calls[i].offered == datagrams)
    && (forall i :: 0 <= i < |calls| - 1 ==> calls[i].Accepted() == 0)
  }

  /** The call was interrupted or would have blocked, and is made again. */
  predicate Retried(call: Attempt) {
    call.reply == Failed(Interrupted) || call.reply == Failed(WouldBlock)
  }

  /**
    * The error is that of the call, the block that a probe found after an interrupted call, or the answer
    * speaks of more messages than were offered.
    */
  predicate FailedWith(call: Attempt, error: ErrorKind) {
    match call.reply
    case Failed(kind) => error == kind || (kind == Interrupted && error == WouldBlock)
    case Sent(lengths) => |lengths| > |call.offered| && error == InvalidData
  }

  /** How many of the calls were interrupted. */
  function Interruptions(calls: seq<Attempt>): nat {
    if calls == [] then 0
    else Interruptions(calls[..|calls| - 1]) + if calls[|calls| - 1].reply == Failed(Interrupted) then 1 else 0
  }

  /** How many of the calls would have blocked. */
  function Blocks(calls: seq<Attempt>): nat {
    if calls == [] then 0
    else Blocks(calls[..|calls| - 1]) + if calls[|calls| - 1].reply == Failed(WouldBlock) then 1 else 0
  }

  /** How many of the calls come after one that would have blocked. */
  function AfterBlock(calls: seq<Attempt>): nat {
    if calls == [] then 0
    else AfterBlock(calls[..|calls| - 1]) + if Blocks(calls[..|calls| - 1]) > 0 then 1 else 0
  }

  /** Every call after a block was made on a socket that a probe of its own found ready. */
  ghost predicate Probed(calls: seq<Attempt>, unready: bool, readiness: nat -> bool, from: nat, to: nat) {
    && to == from + AfterBlock(calls) + (if unready then 1 else 0)
    && (forall i :: from <= i < from + AfterBlock(calls) ==> readiness(i))
    && (unready ==> !readiness(to - 1))
  }

  lemma {:induction false} OneMoreCall(calls: seq<Attempt>, call: Attempt)
    ensures Interruptions(calls + [call]) == Interruptions(calls) + if call.reply == Failed(Interrupted) then 1 else 0
    ensures Blocks(calls + [call]) == Blocks(calls) + if call.reply == Failed(WouldBlock) then 1 else 0
    ensures AfterBlock(calls + [call]) == AfterBlock(calls) + if Blocks(calls) > 0 then 1 else 0
  {
    ConcatSplit(calls, [call]);
  }

  lemma {:induction false} NoCallsYet()
    ensures Interruptions([]) == 0 && Blocks([]) == 0 && AfterBlock([]) == 0
  {
  }

  /**
    * How long an attempt keeps on: it gives up at the eighth interruption and not before, and at the second
    * block, which may be that of a probe, and not before.
    */
  ghost predicate KeepsOn(calls: seq<Attempt>, r: Result<seq<nat>, ErrorKind>, unready: bool) {
    && (r == Err(Interrupted) <==> Interruptions(calls) == 8)
    && Interruptions(calls) <= 8
    && (r == Err(WouldBlock) <==> Blocks(calls) + (if unready then 1 else 0) == 2)
    && Blocks(calls) + (if unready then 1 else 0) <= 2
  }

  /** The calls made by one attempt, and the result it has. */
  ghost predicate AttemptResult(calls: seq<Attempt>, datagrams: seq<Datagram>, r: Result<seq<nat>, ErrorKind>) {
    && 0 < |calls| <= MAX_CONSECUTIVE_INTERRUPTS + 1
    && SameOffer(calls, datagrams)
    && Refused(calls[..|calls| - 1], datagrams)
    && (r.Ok? ==> |r.value| <= |datagrams| && calls[|calls| - 1].reply == Sent(r.value))
    && (r.Err? ==> FailedWith(calls[|calls| - 1], r.error))
  }

  ghost predicate Refusal(call: Attempt, datagrams: seq<Datagram>) {
    call.offered == datagrams && Retried(call)
  }

  /** Calls that all offer the datagrams and are all made again. */
  ghost predicate Refused(calls: seq<Attempt>, datagrams: seq<Datagram>) {
    calls == [] || (Refused(calls[..|calls| - 1], datagrams) && Refusal(calls[|calls| - 1], datagrams))
  }

  lemma {:induction false} RefusedOffer(calls: seq<Attempt>, datagrams: seq<Datagram>)
    requires Refused(calls, datagrams)
    ensures forall i :: 0 <= i < |calls| ==> calls[i].offered == datagrams && calls[i].Accepted() == 0
  {
    if calls != [] {
      RefusedOffer(calls[..|calls| - 1], datagrams);
    }
  }

  lemma {:induction false} NothingRefused(datagrams: seq<Datagram>)
    ensures Refused([], datagrams)
  {
  }

  /** One more call after refused ones. */
  lemma {:induction false} RefusedThen(calls: seq<Attempt>, call: Attempt, datagrams: seq<Datagram>)
    requires Refused(calls, datagrams) && call.offered == datagrams
    ensures SameOffer(calls + [call], datagrams)
    ensures Refusal(call, datagrams) ==> Refused(calls + [call], datagrams)
  {
    RefusedOffer(calls, datagrams);
    ConcatSplit(calls, [call]);
  }

  /** What an attempt comes to and how far it has read the scripts. */
  datatype Verdict = Verdict(r: Result<seq<nat>, ErrorKind>, sends: nat, probes: nat)

  /** One call from here on in the scripts; a socket that has blocked is probed first. */
  function CallFrom(
    replies: nat -> SendReply, readiness: nat -> bool, sends: nat, probes: nat, blocked: bool, count: nat): Verdict
  {
    if !blocked then Verdict(ReplyResult(replies(sends), count), sends + 1, probes)
    else if readiness(probes) then Verdict(ReplyResult(replies(sends), count), sends + 1, probes + 1)
    else Verdict(Err(WouldBlock), sends, probes + 1)
  }

  /** A whole attempt from here on in the scripts, after so many interruptions and perhaps a block. */
  function AttemptFrom(
    replies: nat -> SendReply, readiness: nat -> bool, sends: nat, probes: nat,
    interrupted: nat, blocked: bool, count: nat): Verdict
    requires interrupted < MAX_CONSECUTIVE_INTERRUPTS
    decreases MAX_CONSECUTIVE_INTERRUPTS - interrupted, if blocked then 0 else 1
  {
    var v := CallFrom(replies, readiness, sends, probes, blocked, count);
    if v.r == Err(Interrupted) && interrupted + 1 < MAX_CONSECUTIVE_INTERRUPTS then
      AttemptFrom(replies, readiness, v.sends, v.probes, interrupted + 1, blocked, count)
    else if v.r == Err(WouldBlock) && !blocked then
      AttemptFrom(replies, readiness, v.sends, v.probes, interrupted, true, count)
    else v
  }

  lemma {:induction false} AttemptGoesOn(
    replies: nat -> SendReply, readiness: nat -> bool, sends: nat, probes: nat,
    interrupted: nat, blocked: bool, count: nat, v: Verdict)
    requires interrupted < MAX_CONSECUTIVE_INTERRUPTS
    requires v == CallFrom(replies, readiness, sends, probes, blocked, count)
    ensures AttemptFrom(replies, readiness, sends, probes, interrupted, blocked, count) ==
      if v.r == Err(Interrupted) && interrupted + 1 < MAX_CONSECUTIVE_INTERRUPTS then
        AttemptFrom(replies, readiness, v.sends, v.probes, interrupted + 1, blocked, count)
      else if v.r == Err(WouldBlock) && !blocked then
        AttemptFrom(replies, readiness, v.sends, v.probes, interrupted, true, count)
      else v
  {
  }

  /** Calls the kernel, after a probe if the socket has blocked before. */
  method ProbeAndCall(
    kernel: Kernel, counters: PlainSendCounters, transmit: PlainTransmit, blocked: bool, ghost calls: seq<Attempt>)
    returns (r: Result<seq<nat>, ErrorKind>, ghost more: seq<Attempt>)
    requires kernel.Valid() && |transmit.Datagrams()| <= MAX_PLAIN_BATCH_DATAGRAMS
    requires Refused(calls, transmit.Datagrams()) && (blocked ==> calls != [])
    modifies kernel`sends, kernel`log, kernel`probes, counters`sendmmsgCalls
    ensures kernel.Valid() && calls <= more
    ensures kernel.log == old(kernel.log) + more[|calls|..]
    ensures counters.sendmmsgCalls == old(counters.sendmmsgCalls) + |more| - |calls|
    ensures |calls| <= |more| <= |calls| + 1 && (!blocked || r != Err(WouldBlock) ==> |more| == |calls| + 1)
    ensures |more| > |calls| ==> r == ReplyResult(more[|calls|].reply, |transmit.Datagrams()|)
    ensures |more| == |calls| ==> blocked && r == Err(WouldBlock)
    ensures kernel.probes == old(kernel.probes) + if blocked then 1 else 0
    ensures blocked ==> (kernel.readiness(old(kernel.probes)) <==> |more| > |calls|)
    ensures AttemptResult(more, transmit.Datagrams(), r) || |more| > MAX_CONSECUTIVE_INTERRUPTS + 1
    ensures r == Err(Interrupted) || r == Err(WouldBlock) ==> Refused(more, transmit.Datagrams())
    ensures Verdict(r, kernel.sends, kernel.probes)
         == CallFrom(kernel.sendReplies, kernel.readiness, old(kernel.sends), old(kernel.probes), blocked,
                     |transmit.Datagrams()|)
  {
    hide Scripted, Chunks;
    ghost var datagrams := transmit.Datagrams();
    more := calls;
    if blocked {
      var ready := kernel.Ready();
      if !ready {
        RefusedOffer(calls, datagrams);
        ConcatEmpty(kernel.log);
        return Err(WouldBlock), more;
      }
    }
    ghost var call;
    r, call := AttemptOnce(kernel, counters, transmit);
    RefusedThen(calls, call, datagrams);
    more := calls + [call];
    ConcatSplit(calls, [call]);
  }

  method TryAttempt(kernel: Kernel, counters: PlainSendCounters, transmit: PlainTransmit)
    returns (r: Result<seq<nat>, ErrorKind>, ghost calls: seq<Attempt>, ghost unready: bool)
    requires kernel.Valid() && |transmit.Datagrams()| <= MAX_PLAIN_BATCH_DATAGRAMS
    modifies kernel`sends, kernel`log, kernel`probes, counters`sendmmsgCalls
    ensures kernel.Valid() && kernel.log == old(kernel.log) + calls
    ensures counters.sendmmsgCalls == old(counters.sendmmsgCalls) + |calls|
    ensures AttemptResult(calls, transmit.Datagrams(), r) && KeepsOn(calls, r, unready)
    ensures Probed(calls, unready, kernel.readiness, old(kernel.probes), kernel.probes)
    ensures Verdict(r, kernel.sends, kernel.probes)
         == AttemptFrom(kernel.sendReplies, kernel.readiness, old(kernel.sends), old(kernel.probes), 0, false,
                        |transmit.Datagrams()|)
  {
    hide Scripted, Chunks, Refused, AttemptResult, AttemptFrom, CallFrom, Interruptions, Blocks, AfterBlock;
    var interrupted := 0;
    var clearCachedReadiness := false;
    calls, unready := [], false;
    NoCallsYet();
    ghost var datagrams := transmit.Datagrams();
    ghost var verdict :=
      AttemptFrom(kernel.sendReplies, kernel.readiness, kernel.sends, kernel.probes, 0, false, |datagrams|);
    NothingRefused(datagrams);
    ConcatEmpty(kernel.log);
    while true
      invariant interrupted < MAX_CONSECUTIVE_INTERRUPTS
      invariant |calls| == interrupted + if clearCachedReadiness then 1 else 0
      invariant kernel.Valid() && kernel.log == old(kernel.log) + calls
      invariant counters.sendmmsgCalls == old(counters.sendmmsgCalls) + |calls|
      invariant Refused(calls, datagrams) && !unready
      invariant Probed(calls, unready, kernel.readiness, old(kernel.probes), kernel.probes)
      invariant Interruptions(calls) == interrupted && Blocks(calls) == if clearCachedReadiness then 1 else 0
      invariant verdict == AttemptFrom(kernel.sendReplies, kernel.readiness, kernel.sends, kernel.probes,
                                       interrupted, clearCachedReadiness, |datagrams|)
      decreases MAX_CONSECUTIVE_INTERRUPTS - interrupted, !clearCachedReadiness
    {
      ghost var sends, probes, before := kernel.sends, kernel.probes, calls;
      var result;
      result, calls := ProbeAndCall(kernel, counters, transmit, clearCachedReadiness, calls);
      ConcatAssociative(old(kernel.log), before, calls[|before|..]);
      assert before + calls[|before|..] == calls;
      unready := |calls| == |before|;
      if unready {
        assert calls == before;
      } else {
        assert calls == before + [calls[|before|]];
        OneMoreCall(before, calls[|before|]);
      }
      AttemptGoesOn(kernel.sendReplies, kernel.readiness, sends, probes, interrupted, clearCachedReadiness,
                    |datagrams|, Verdict(result, kernel.sends, kernel.probes));
      if result == Err(Interrupted) {
        interrupted := interrupted + 1;
        if interrupted == MAX_CONSECUTIVE_INTERRUPTS {
          r := Err(Interrupted);
          return;
        }
      } else if result == Err(WouldBlock) && !clearCachedReadiness {
        clearCachedReadiness := true;
      } else {
        r := result;
        return;
      }
    }
  }

  // ---------------------------------------------------------------- waiting for the socket

  function PollError(events: PollReply): ErrorKind
    requires events.Events?
  {
    if events.err && events.pending.Err? then events.pending.error
    else if events.err && events.pending.value.Some? then events.pending.value.value
    else if events.nval then InvalidInput
    else if events.hup then BrokenPipe
    else OtherKind(0)
  }

  /** The poll says that the socket takes data and nothing is wrong with it. */
  predicate Writable(reply: PollReply) {
    reply.Events? && reply.out && !reply.err && !reply.nval && !reply.hup
  }

  /** The poll says nothing: it was interrupted or woke up for no reason. */
  predicate Spurious(reply: PollReply) {
    reply.PollInterrupted? || (reply.Events? && !reply.out && !reply.err && !reply.nval && !reply.hup)
  }

  /** A poll ends the wait with this error: no event in time, a failed poll, or what is wrong with the socket. */
  predicate PollFails(reply: PollReply, error: ErrorKind) {
    match reply
    case NoEvents => error == TimedOut
    case PollInterrupted => false
    case PollFailed(kind) => error == kind
    case Events(_, err, nval, hup, pending) =>
      if err && pending != Ok(None) then pending == Err(error) || pending == Ok(Some(error))
      else if nval then error == InvalidInput
      else if hup then error == BrokenPipe
      else err && error == OtherKind(0)
  }

  /** Waits through spurious polls; success is exactly a writable socket before the deadline. */
  method WaitWritable(kernel: Kernel, deadline: int) returns (r: Result<(), ErrorKind>)
    requires kernel.ClockRuns()
    modifies kernel`ticks, kernel`polls
    ensures kernel.ticks > old(kernel.ticks) && kernel.polls >= old(kernel.polls)
    ensures r.Ok? ==> kernel.clock(kernel.ticks - 1) < deadline
    ensures r.Ok? <==> kernel.polls > old(kernel.polls) && Writable(kernel.pollReplies(kernel.polls - 1))
    ensures forall i :: old(kernel.polls) <= i < kernel.polls - 1 ==> Spurious(kernel.pollReplies(i))
    ensures kernel.polls > old(kernel.polls) && !Spurious(kernel.pollReplies(kernel.polls - 1)) && r.Err? ==>
      PollFails(kernel.pollReplies(kernel.polls - 1), r.error)
    ensures kernel.polls == old(kernel.polls) || Spurious(kernel.pollReplies(kernel.polls - 1)) ==>
      r == Err(TimedOut) && kernel.clock(kernel.ticks - 1) >= deadline
  {
    assert kernel.Reaches(deadline);
    ghost var bound: nat :| kernel.clock(bound) >= deadline;
    var now := kernel.Now();
    while true
      invariant kernel.polls >= old(kernel.polls)
      invariant forall i :: old(kernel.polls) <= i < kernel.polls ==> Spurious(kernel.pollReplies(i))
      invariant kernel.ticks > old(kernel.ticks) && now == kernel.clock(kernel.ticks - 1)
      decreases bound - kernel.ticks
    {
      if now >= deadline {
        return Err(TimedOut);
      }
      var reply := kernel.Poll();
      match reply {
        case NoEvents =>
          return Err(TimedOut);
        case Events(out, err, nval, hup, pending) =>
          if err || nval || hup {
            return Err(PollError(reply));
          }
          if out {
            return Ok(());
          }
        case PollInterrupted =>
        case PollFailed(kind) =>
          return Err(kind);
      }
      now := kernel.Now();
    }
  }

  // ---------------------------------------------------------------- what a run delivers

  /** The number of datagrams accepted in full over all calls. */
  function AcceptedOver(log: seq<Attempt>): nat {
    if log == [] then 0 else AcceptedOver(log[..|log| - 1]) + log[|log| - 1].Accepted()
  }

  /** The datagrams accepted in full, in the order of acceptance. */
  function Delivered(log: seq<Attempt>): seq<Datagram> {
    if log == [] then []
    else Delivered(log[..|log| - 1]) + log[|log| - 1].offered[..log[|log| - 1].Accepted()]
  }

  /** The number of calls that took some but not all of what they were offered. */
  function PartialsOver(log: seq<Attempt>): nat {
    if log == [] then 0
    else PartialsOver(log[..|log| - 1]) + PartialIn(log[|log| - 1])
  }

  function PartialIn(call: Attempt): nat {
    if 0 < call.Accepted() < |call.offered| then 1 else 0
  }

  /** Every call offers exactly what the calls before it left. */
  ghost predicate OffersRest(log: seq<Attempt>, datagrams: seq<Datagram>) {
    log == [] ||
    var before := log[..|log| - 1];
    && OffersRest(before, datagrams)
    && AcceptedOver(before) <= |datagrams|
    && log[|log| - 1].offered == datagrams[AcceptedOver(before)..]
  }

  /** Call `i` offers the datagrams left over by the calls before it, with their boundaries unchanged. */
  lemma {:induction false} OffersRestAt(log: seq<Attempt>, datagrams: seq<Datagram>, i: nat)
    requires OffersRest(log, datagrams) && i < |log|
    ensures AcceptedOver(log[..i]) <= |datagrams|
    ensures log[i].offered == datagrams[AcceptedOver(log[..i])..]
  {
    if i < |log| - 1 {
      OffersRestAt(log[..|log| - 1], datagrams, i);
      assert log[..|log| - 1][..i] == log[..i];
    }
  }

  /** What has been delivered is a prefix of the original datagrams: in order, nothing twice, nothing skipped. */
  lemma {:induction false} DeliveredIsPrefix(log: seq<Attempt>, datagrams: seq<Datagram>)
    requires OffersRest(log, datagrams)
    ensures AcceptedOver(log) <= |datagrams|
    ensures Delivered(log) == datagrams[..AcceptedOver(log)]
  {
    if log != [] {
      var before := log[..|log| - 1];
      var call := log[|log| - 1];
      DeliveredIsPrefix(before, datagrams);
      assert datagrams[..AcceptedOver(log)]
          == datagrams[..AcceptedOver(before)] + datagrams[AcceptedOver(before)..][..call.Accepted()];
    }
  }

  lemma {:induction false} AppendCall(log: seq<Attempt>, call: Attempt, datagrams: seq<Datagram>)
    requires OffersRest(log, datagrams) && AcceptedOver(log) <= |datagrams|
    requires call.offered == datagrams[AcceptedOver(log)..]
    ensures OffersRest(log + [call], datagrams)
    ensures AcceptedOver(log + [call]) == AcceptedOver(log) + call.Accepted() <= |datagrams|
    ensures PartialsOver(log + [call]) == PartialsOver(log) + PartialIn(call)
  {
    ConcatSplit(log, [call]);
  }

  /** Calls that take nothing leave the run where it was. */
  lemma {:induction false} AppendIdle(log: seq<Attempt>, calls: seq<Attempt>, datagrams: seq<Datagram>)
    requires OffersRest(log, datagrams) && AcceptedOver(log) <= |datagrams|
    requires forall i :: 0 <= i < |calls| ==>
      calls[i].offered == datagrams[AcceptedOver(log)..] && calls[i].Accepted() == 0
    ensures OffersRest(log + calls, datagrams)
    ensures AcceptedOver(log + calls) == AcceptedOver(log) && PartialsOver(log + calls) == PartialsOver(log)
    decreases |calls|
  {
    hide OffersRest, AcceptedOver, PartialsOver;
    if calls == [] {
      ConcatEmpty(log);
    } else {
      var front := calls[..|calls| - 1];
      AppendIdle(log, front, datagrams);
      AppendCall(log + front, calls[|calls| - 1], datagrams);
      ConcatLast(log, calls);
    }
  }

  /** The datagrams an attempt's result takes of those offered. */
  function TakenBy(r: Result<seq<nat>, ErrorKind>, offered: seq<Datagram>): (taken: nat)
    ensures taken <= |offered|
  {
    if r.Ok? && |r.value| <= |offered| then FullPrefix(r.value, offered) else 0
  }

  /** Appending the calls of one answered attempt. */
  lemma {:induction false} AppendAnswered(
    log: seq<Attempt>, calls: seq<Attempt>, datagrams: seq<Datagram>, left: seq<Datagram>)
    requires OffersRest(log, datagrams) && AcceptedOver(log) <= |datagrams|
    requires left == datagrams[AcceptedOver(log)..] && calls != [] && SameOffer(calls, left)
    ensures OffersRest(log + calls, datagrams)
    ensures AcceptedOver(log + calls) == AcceptedOver(log) + calls[|calls| - 1].Accepted()
    ensures PartialsOver(log + calls) == PartialsOver(log) + PartialIn(calls[|calls| - 1])
  {
    var front := calls[..|calls| - 1];
    AppendIdle(log, front, datagrams);
    AppendCall(log + front, calls[|calls| - 1], datagrams);
    ConcatLast(log, calls);
  }

  /** Appending the calls of one attempt keeps the run in order and adds what its result takes. */
  lemma {:induction false} AppendAttempt(
    log: seq<Attempt>, calls: seq<Attempt>, datagrams: seq<Datagram>, left: seq<Datagram>, r: Result<seq<nat>, ErrorKind>)
    requires OffersRest(log, datagrams) && AcceptedOver(log) <= |datagrams|
    requires left == datagrams[AcceptedOver(log)..] && AttemptResult(calls, left, r)
    ensures OffersRest(log + calls, datagrams)
    ensures AcceptedOver(log + calls) == AcceptedOver(log) + TakenBy(r, left)
    ensures PartialsOver(log + calls) == PartialsOver(log) + if 0 < TakenBy(r, left) < |left| then 1 else 0
  {
    assert calls[|calls| - 1].Accepted() == TakenBy(r, left);
    AppendAnswered(log, calls, datagrams, left);
  }

  /** A call that took datagrams, all of them in full: the sender goes on after such a call. */
  predicate Progresses(call: Attempt) {
    && call.reply.Sent? && 0 < |call.reply.lengths| <= |call.offered|
    && forall i :: 0 <= i < |call.reply.lengths| ==> call.reply.lengths[i] == |call.offered[i]|
  }

  /** Every call of the run got on or was made again. */
  ghost predicate Onward(run: seq<Attempt>) {
    run == [] || (Onward(run[..|run| - 1]) && (Progresses(run[|run| - 1]) || Retried(run[|run| - 1])))
  }

  /** Every call but the last got on or was made again, so nothing is offered after a short answer. */
  ghost predicate Pressed(run: seq<Attempt>) {
    run != [] && Onward(run[..|run| - 1])
  }

  /** The call was answered with lengths, for no more messages than it offered. */
  predicate Answered(call: Attempt) {
    call.reply.Sent? && |call.reply.lengths| <= |call.offered|
  }

  /** The error comes from the last call: it failed, took nothing, or took a datagram short. */
  ghost predicate StoppedBy(run: seq<Attempt>, error: ErrorKind) {
    && run != []
    && !Progresses(run[|run| - 1])
    && if Answered(run[|run| - 1]) then error == WriteZero else FailedWith(run[|run| - 1], error)
  }

  lemma {:induction false} OnwardAt(run: seq<Attempt>, i: nat)
    requires Onward(run) && i < |run|
    ensures Progresses(run[i]) || Retried(run[i])
  {
    if i < |run| - 1 {
      OnwardAt(run[..|run| - 1], i);
    }
  }

  lemma {:induction false} OnwardRefused(run: seq<Attempt>, calls: seq<Attempt>, datagrams: seq<Datagram>)
    requires Onward(run) && Refused(calls, datagrams)
    ensures Onward(run + calls)
  {
    if calls == [] {
      ConcatEmpty(run);
    } else {
      var front := calls[..|calls| - 1];
      OnwardRefused(run, front, datagrams);
      ConcatLast(run, calls);
      ConcatSplit(run + front, [calls[|calls| - 1]]);
    }
  }

  /** The same for the attempt that starts a run. */
  lemma {:induction false} FirstOnward(calls: seq<Attempt>, datagrams: seq<Datagram>, r: Result<seq<nat>, ErrorKind>)
    requires AttemptResult(calls, datagrams, r)
    ensures Pressed(calls)
    ensures r.Ok? && r.value != [] && TakenBy(r, datagrams) == |r.value| ==>
      Onward(calls) && Progresses(calls[|calls| - 1])
    ensures r.Err? ==> StoppedBy(calls, r.error)
    ensures r.Ok? && (r.value == [] || TakenBy(r, datagrams) < |r.value|) ==> StoppedBy(calls, WriteZero)
  {
    assert [] + calls == calls;
    OnwardAttempt([], calls, datagrams, r);
  }

  /** A run goes on with the calls of one attempt. */
  lemma {:induction false} OnwardAttempt(
    run: seq<Attempt>, calls: seq<Attempt>, left: seq<Datagram>, r: Result<seq<nat>, ErrorKind>)
    requires Onward(run) && AttemptResult(calls, left, r)
    ensures Pressed(run + calls)
    ensures r == Err(WouldBlock) ==> Onward(run + calls)
    ensures r.Ok? && r.value != [] && TakenBy(r, left) == |r.value| ==> Onward(run + calls)
    ensures r.Err? ==> StoppedBy(run + calls, r.error)
    ensures r.Ok? && (r.value == [] || TakenBy(r, left) < |r.value|) ==> StoppedBy(run + calls, WriteZero)
  {
    hide Onward, Progresses, Retried, FailedWith, FullPrefix, Answered;
    var front, last := calls[..|calls| - 1], calls[|calls| - 1];
    OnwardRefused(run, front, left);
    ConcatLast(run, calls);
    OnwardCall(run + front, last);
    LastCall(last, left, r);
  }

  lemma {:induction false} OnwardCall(run: seq<Attempt>, call: Attempt)
    requires Onward(run)
    ensures Pressed(run + [call]) && (run + [call])[|run + [call]| - 1] == call
    ensures Progresses(call) || Retried(call) ==> Onward(run + [call])
  {
    ConcatSplit(run, [call]);
  }

  /** What the result of an attempt says about its last call. */
  lemma {:induction false} LastCall(call: Attempt, left: seq<Datagram>, r: Result<seq<nat>, ErrorKind>)
    requires call.offered == left
    requires if r.Ok? then |r.value| <= |left| && call.reply == Sent(r.value) else FailedWith(call, r.error)
    ensures r.Err? ==> !Progresses(call) && !Answered(call)
    ensures r == Err(WouldBlock) ==> Retried(call)
    ensures r.Ok? ==> Answered(call)
    ensures r.Ok? ==> (Progresses(call) <==> r.value != [] && TakenBy(r, left) == |r.value|)
    ensures r.Ok? ==> TakenBy(r, left) <= |r.value|
  {
    if r.Ok? {
      FullPrefixIsLongest(r.value, left);
    }
  }

  /** What one more attempt makes of a run and of the datagrams it has left. */
  lemma {:induction false} RetryStep(
    run: seq<Attempt>, calls: seq<Attempt>, datagrams: seq<Datagram>, left: seq<Datagram>, r: Result<seq<nat>, ErrorKind>)
    requires OffersRest(run, datagrams) && AcceptedOver(run) <= |datagrams|
    requires left == datagrams[AcceptedOver(run)..] && AttemptResult(calls, left, r)
    ensures OffersRest(run + calls, datagrams)
    ensures AcceptedOver(run + calls) == AcceptedOver(run) + TakenBy(r, left) <= |datagrams|
    ensures PartialsOver(run + calls) == PartialsOver(run) + if 0 < TakenBy(r, left) < |left| then 1 else 0
    ensures left[TakenBy(r, left)..] == datagrams[AcceptedOver(run + calls)..]
    ensures r.Ok? ==> |r.value| <= |left|
  {
    hide OffersRest, AcceptedOver, PartialsOver;
    AppendAttempt(run, calls, datagrams, left, r);
    DropDrop(datagrams, AcceptedOver(run), TakenBy(r, left));
  }

  /** The same for the attempt that starts a run. */
  lemma {:induction false} StartAttempt(calls: seq<Attempt>, datagrams: seq<Datagram>, r: Result<seq<nat>, ErrorKind>)
    requires AttemptResult(calls, datagrams, r)
    ensures calls != [] && OffersRest(calls, datagrams)
    ensures AcceptedOver(calls) == TakenBy(r, datagrams)
    ensures PartialsOver(calls) == if 0 < TakenBy(r, datagrams) < |datagrams| then 1 else 0
    ensures r.Ok? ==> |r.value| <= |datagrams|
  {
    TakeAll(datagrams);
    ConcatEmpty(calls);
    RetryStep([], calls, datagrams, datagrams, r);
  }

  // ---------------------------------------------------------------- send

  method RecordAccepted(counters: PlainSendCounters, offered: nat, accepted: nat)
    modifies counters`sendmmsgDatagrams, counters`partialPrefixes
    ensures counters.sendmmsgDatagrams == old(counters.sendmmsgDatagrams) + accepted
    ensures counters.partialPrefixes == old(counters.partialPrefixes) + if 0 < accepted < offered then 1 else 0
  {
    if accepted == 0 {
      return;
    }
    counters.sendmmsgDatagrams := counters.sendmmsgDatagrams + accepted;
    if accepted < offered {
      counters.partialPrefixes := counters.partialPrefixes + 1;
    }
  }

  /** The counts of a run added to the counts before it. */
  ghost predicate Counted(counters: PlainSendCounters, start: Counts, run: seq<Attempt>)
    reads counters
  {
    && counters.sendmmsgCalls == start.calls + |run|
    && counters.sendmmsgDatagrams == start.datagrams + AcceptedOver(run)
    && counters.partialPrefixes == start.partials + PartialsOver(run)
  }

  datatype Counts = Counts(calls: nat, datagrams: nat, partials: nat)

  ghost function CountsIn(counters: PlainSendCounters): Counts
    reads counters
  {
    Counts(counters.sendmmsgCalls, counters.sendmmsgDatagrams, counters.partialPrefixes)
  }

  /** The run is one over `datagrams`, and the sender owns exactly what it has left. */
  ghost predicate Owns(progress: BatchProgress, run: seq<Attempt>, datagrams: seq<Datagram>)
    reads progress.transmit
  {
    && progress.transmit.Valid()
    && OffersRest(run, datagrams)
    && AcceptedOver(run) <= |datagrams|
    && progress.Remaining() == datagrams[AcceptedOver(run)..]
  }

  /** Takes one answer into account: the datagrams it accepts leave the owned suffix and are counted. */
  method RecordAnswer(counters: PlainSendCounters, progress: BatchProgress, sent: seq<nat>)
    returns (r: Result<ProgressDecision, ErrorKind>, ghost taken: nat)
    requires progress.transmit.Valid() && progress.Remaining() != [] && |sent| <= |progress.Remaining()|
    modifies counters`sendmmsgDatagrams, counters`partialPrefixes, progress.transmit
    ensures progress.transmit.Valid() && taken == FullPrefix(sent, old(progress.Remaining()))
    ensures progress.Remaining() == old(progress.Remaining())[taken..]
    ensures counters.sendmmsgDatagrams == old(counters.sendmmsgDatagrams) + taken
    ensures counters.partialPrefixes ==
      old(counters.partialPrefixes) + if 0 < taken < |old(progress.Remaining())| then 1 else 0
    ensures r == Ok(Pending) ==> 0 < taken < |old(progress.Remaining())|
    ensures r == Ok(Complete) <==> taken == |old(progress.Remaining())|
    ensures r.Ok? ==> sent != [] && taken == |sent|
    ensures r.Err? ==> r.error == WriteZero && (sent == [] || taken < |sent|)
  {
    hide Chunks, FullPrefix;
    var offered := |progress.Remaining()|;
    r := progress.RecordSent(sent);
    taken := offered - |progress.Remaining()|;
    RecordAccepted(counters, offered, offered - |progress.Remaining()|);
  }

  /** One retry of the owned suffix: `None` when the socket would block, with nothing taken. */
  method RetrySuffix(
    kernel: Kernel, counters: PlainSendCounters, progress: BatchProgress,
    ghost datagrams: seq<Datagram>, ghost base: seq<Attempt>, ghost run: seq<Attempt>, ghost start: Counts)
    returns (r: Result<Option<ProgressDecision>, ErrorKind>, ghost grown: seq<Attempt>)
    requires kernel.Valid() && kernel.log == base + run && Owns(progress, run, datagrams) && Onward(run)
    requires AcceptedOver(run) < |datagrams| <= MAX_PLAIN_BATCH_DATAGRAMS && Counted(counters, start, run)
    modifies kernel`sends, kernel`log, kernel`probes, counters, progress.transmit
    ensures kernel.Valid() && kernel.log == base + grown && Owns(progress, grown, datagrams)
    ensures Counted(counters, start, grown)
    ensures AcceptedOver(run) <= AcceptedOver(grown)
    ensures r == Ok(None) ==> AcceptedOver(grown) == AcceptedOver(run)
    ensures r == Ok(Some(Pending)) ==> AcceptedOver(run) < AcceptedOver(grown) < |datagrams|
    ensures r == Ok(Some(Complete)) <==> AcceptedOver(grown) == |datagrams|
    ensures Pressed(grown) && (r.Ok? ==> Onward(grown))
    ensures r == Ok(None) ==> StoppedBy(grown, WouldBlock)
    ensures r.Err? ==> r.error != WouldBlock && StoppedBy(grown, r.error)
  {
    hide OffersRest, AcceptedOver, PartialsOver, AttemptResult, Onward, Pressed, StoppedBy, Scripted, Chunks, FullPrefix,
      AttemptFrom, KeepsOn, Probed;
    ghost var left := progress.Remaining();
    var attempt;
    ghost var calls;
    ghost var unready;
    attempt, calls, unready := TryAttempt(kernel, counters, progress.transmit.Transmit());
    grown := run + calls;
    ConcatAssociative(base, run, calls);
    RetryStep(run, calls, datagrams, left, attempt);
    OnwardAttempt(run, calls, left, attempt);
    if attempt.Err? {
      r := if attempt.error == WouldBlock then Ok(None) else Err(attempt.error);
      return;
    }
    var decision;
    ghost var taken;
    decision, taken := RecordAnswer(counters, progress, attempt.value);
    r := if decision.Err? then Err(decision.error) else Ok(Some(decision.value));
  }

  /** Where the kernel's clock and polls are when a recovery begins. */
  datatype Mark = Mark(ticks: nat, polls: nat)

  /**
    * The wait ended with this error: a millisecond or more after the recovery began, or by the last poll;
    * a wait does not block.
    */
  ghost predicate WaitFailed(kernel: Kernel, mark: Mark, error: ErrorKind)
    reads kernel`ticks, kernel`polls
  {
    || (error == TimedOut && kernel.ticks > mark.ticks
        && kernel.clock(kernel.ticks - 1) >= kernel.clock(mark.ticks) + 1_000_000)
    || (kernel.polls > mark.polls
        && (PollFails(kernel.pollReplies(kernel.polls - 1), error)
            || (error == TimedOut && PollFails(kernel.pollReplies(kernel.polls - 1), WouldBlock))))
  }

  /** Why a recovery gives up: the error of its last call, or of the wait after that call blocked. */
  ghost predicate GaveUp(kernel: Kernel, mark: Mark, run: seq<Attempt>, error: ErrorKind)
    reads kernel`ticks, kernel`polls
  {
    StoppedBy(run, error) || (StoppedBy(run, WouldBlock) && WaitFailed(kernel, mark, error))
  }

  /** Retries the owned suffix until it is sent, refused or out of time. */
  method CompleteSuffix(
    kernel: Kernel, counters: PlainSendCounters, progress: BatchProgress, deadline: int,
    ghost datagrams: seq<Datagram>, ghost base: seq<Attempt>, ghost run: seq<Attempt>, ghost start: Counts,
    ghost mark: Mark)
    returns (r: Result<(), ErrorKind>, ghost grown: seq<Attempt>)
    requires kernel.ClockRuns() && mark.ticks < kernel.ticks && mark.polls <= kernel.polls
    requires deadline == kernel.clock(mark.ticks) + 1_000_000
    requires kernel.Valid() && kernel.log == base + run && Owns(progress, run, datagrams) && Onward(run)
    requires AcceptedOver(run) < |datagrams| <= MAX_PLAIN_BATCH_DATAGRAMS && Counted(counters, start, run)
    modifies kernel, counters, progress.transmit
    ensures kernel.Valid() && kernel.log == base + grown && Owns(progress, grown, datagrams)
    ensures Counted(counters, start, grown)
    ensures AcceptedOver(run) <= AcceptedOver(grown)
    ensures r.Ok? <==> AcceptedOver(grown) == |datagrams|
    ensures Pressed(grown)
    ensures r.Err? ==> r.error != WouldBlock && GaveUp(kernel, mark, grown, r.error)
  {
    hide OffersRest, AcceptedOver, PartialsOver, Onward, Pressed, StoppedBy, Chunks, Scripted, Owns, Counted;
    assert kernel.Reaches(deadline);
    ghost var bound: nat :| kernel.clock(bound) >= deadline;
    ghost var limit := bound + kernel.ticks;
    grown := run;
    while true
      invariant kernel.Valid() && kernel.ticks <= limit && kernel.log == base + grown
      invariant mark.ticks < kernel.ticks && mark.polls <= kernel.polls
      invariant Owns(progress, grown, datagrams) && Onward(grown)
      invariant Counted(counters, start, grown)
      invariant AcceptedOver(run) <= AcceptedOver(grown) < |datagrams|
      decreases |datagrams| - AcceptedOver(grown), limit - kernel.ticks
    {
      var step;
      step, grown := RetrySuffix(kernel, counters, progress, datagrams, base, grown, start);
      if step == Ok(None) {
        var waited := WaitWritable(kernel, deadline);
        if waited.Err? {
          r := if waited.error == WouldBlock then Err(TimedOut) else Err(waited.error);
          return;
        }
      } else if step.Err? {
        r := Err(step.error);
        return;
      } else if step.value.value.Complete? {
        r := Ok(());
        return;
      }
    }
  }

  /** Recovery after a positive prefix: the owned suffix, within the budget. */
  method Recover(
    kernel: Kernel, counters: PlainSendCounters, owned: OwnedTransmit,
    ghost datagrams: seq<Datagram>, ghost base: seq<Attempt>, ghost run: seq<Attempt>, ghost start: Counts)
    returns (r: Result<(), ErrorKind>, ghost grown: seq<Attempt>)
    requires kernel.ClockRuns() && owned.Valid() && |datagrams| <= MAX_PLAIN_BATCH_DATAGRAMS
    requires kernel.Valid() && kernel.log == base + run && Onward(run)
    requires OffersRest(run, datagrams) && 0 < AcceptedOver(run) < |datagrams|
    requires owned.Transmit().Datagrams() == datagrams[AcceptedOver(run)..]
    requires Counted(counters, start, run)
    modifies kernel, counters, owned
    ensures kernel.Valid() && kernel.log == base + grown
    ensures OffersRest(grown, datagrams) && 0 < AcceptedOver(grown) <= |datagrams|
    ensures r.Ok? <==> AcceptedOver(grown) == |datagrams|
    ensures Pressed(grown)
    ensures r.Err? ==> r.error != WouldBlock && GaveUp(kernel, old(Mark(kernel.ticks, kernel.polls)), grown, r.error)
    ensures Counted(counters, start, grown)
  {
    var progress := new BatchProgress(owned);
    ghost var mark := Mark(kernel.ticks, kernel.polls);
    var now := kernel.Now();
    r, grown := CompleteSuffix(kernel, counters, progress, now + SUFFIX_COMPLETION_BUDGET, datagrams, base, run, start,
                               mark);
  }

  /** What one send has done, by the calls it made. */
  ghost predicate SendResult(transmit: PlainTransmit, run: seq<Attempt>, r: Result<(), ErrorKind>) {
    && OffersRest(run, transmit.Datagrams())
    && (r.Ok? <==> transmit.Datagrams() != [] && AcceptedOver(run) == |transmit.Datagrams()|)
    && (r == Err(WouldBlock) ==> AcceptedOver(run) == 0)
    && (|transmit.Datagrams()| > MAX_PLAIN_BATCH_DATAGRAMS ==> r == Err(InvalidInput) && run == [])
  }

  /**
    * Why a send fails: after a call that got on, only for want of memory for the rest; with nothing
    * accepted, for the error of the last call; else for that or for the wait after it, and not by blocking.
    */
  ghost predicate SendError(kernel: Kernel, mark: Mark, run: seq<Attempt>, error: ErrorKind, reserved: bool)
    reads kernel`ticks, kernel`polls
  {
    && run != []
    && if Progresses(run[|run| - 1]) then !reserved && error == OutOfMemory
       else if AcceptedOver(run) == 0 then StoppedBy(run, error)
       else error != WouldBlock && GaveUp(kernel, mark, run, error)
  }

  /** The first attempt, on the caller's whole transmit: how many of its datagrams it accepted. */
  method FirstAttempt(kernel: Kernel, counters: PlainSendCounters, transmit: PlainTransmit)
    returns (r: Result<nat, ErrorKind>, ghost run: seq<Attempt>)
    requires kernel.Valid() && |transmit.Datagrams()| <= MAX_PLAIN_BATCH_DATAGRAMS
    modifies kernel`sends, kernel`log, kernel`probes, counters
    ensures kernel.Valid() && kernel.log == old(kernel.log) + run && OffersRest(run, transmit.Datagrams()) && run != []
    ensures Counted(counters, old(CountsIn(counters)), run)
    ensures r.Ok? ==> 0 < r.value == AcceptedOver(run) <= |transmit.Datagrams()|
    ensures r.Err? && transmit.Datagrams() != [] ==> AcceptedOver(run) < |transmit.Datagrams()|
    ensures r == Err(WouldBlock) ==> AcceptedOver(run) == 0
    ensures Pressed(run) && (r.Ok? ==> Onward(run) && Progresses(run[|run| - 1]))
    ensures r.Err? ==> StoppedBy(run, r.error)
  {
    hide OffersRest, AcceptedOver, PartialsOver, AttemptResult, Onward, Pressed, StoppedBy, Scripted, Chunks, FullPrefix,
      AttemptFrom, KeepsOn, Probed;
    var offered := |transmit.Datagrams()|;
    var attempt;
    ghost var unready;
    attempt, run, unready := TryAttempt(kernel, counters, transmit);
    StartAttempt(run, transmit.Datagrams(), attempt);
    FirstOnward(run, transmit.Datagrams(), attempt);
    if attempt.Err? {
      r := Err(attempt.error);
      return;
    }
    var prefix := transmit.SentPrefix(attempt.value);
    var accepted, allFull := prefix.value.0, prefix.value.1;
    assert accepted == TakenBy(attempt, transmit.Datagrams()) == AcceptedOver(run);
    RecordAccepted(counters, offered, accepted);
    r := if !allFull || accepted == 0 then Err(WriteZero) else Ok(accepted);
  }

  /**
    * One send. The calls it makes are a run over the transmit's datagrams; success is exactly full
    * acceptance, `WouldBlock` leaves the whole transmit with the caller, and the counters grow by
    * what the calls did. The calls are answered by the kernel; nothing is offered after a short answer,
    * and the error is that of the last call or of the wait after it.
    */
  method Send(kernel: Kernel, counters: PlainSendCounters, transmit: PlainTransmit, reserved: bool)
    returns (r: Result<(), ErrorKind>, ghost run: seq<Attempt>)
    requires kernel.ClockRuns() && kernel.Valid()
    modifies kernel, counters
    ensures kernel.Valid() && kernel.log == old(kernel.log) + run
    ensures kernel.sends == old(kernel.sends) + |run|
    ensures forall i :: 0 <= i < |run| ==> run[i].reply == kernel.sendReplies(old(kernel.sends) + i)
    ensures transmit.Cuts(transmit.Datagrams()) && SendResult(transmit, run, r)
    ensures |transmit.Datagrams()| <= MAX_PLAIN_BATCH_DATAGRAMS ==>
      && Pressed(run)
      && (r.Err? ==> SendError(kernel, old(Mark(kernel.ticks, kernel.polls)), run, r.error, reserved))
    ensures Counted(counters, old(CountsIn(counters)), run)
  {
    r, run := Sending(kernel, counters, transmit, reserved);
    transmit.DatagramsCut(transmit.Datagrams());
    forall i | 0 <= i < |run| ensures run[i].reply == kernel.sendReplies(old(kernel.sends) + i) {
      ScriptedAt(kernel.log, kernel.sendReplies, old(kernel.sends) + i);
    }
  }

  lemma {:induction false} NoCalls(datagrams: seq<Datagram>)
    ensures OffersRest([], datagrams) && AcceptedOver([]) == 0 && PartialsOver([]) == 0
  {
  }

  lemma {:induction false} CallError(kernel: Kernel, mark: Mark, run: seq<Attempt>, error: ErrorKind, reserved: bool)
    requires StoppedBy(run, error) && (error == WouldBlock ==> AcceptedOver(run) == 0)
    ensures SendError(kernel, mark, run, error, reserved)
  {
  }

  lemma {:induction false} RecoveryError(kernel: Kernel, mark: Mark, run: seq<Attempt>, error: ErrorKind, reserved: bool)
    requires GaveUp(kernel, mark, run, error) && error != WouldBlock && AcceptedOver(run) > 0
    ensures SendError(kernel, mark, run, error, reserved)
  {
  }

  /** The body of a send. */
  method Sending(kernel: Kernel, counters: PlainSendCounters, transmit: PlainTransmit, reserved: bool)
    returns (r: Result<(), ErrorKind>, ghost run: seq<Attempt>)
    requires kernel.ClockRuns() && kernel.Valid()
    modifies kernel, counters
    ensures kernel.Valid() && kernel.log == old(kernel.log) + run
    ensures SendResult(transmit, run, r)
    ensures |transmit.Datagrams()| <= MAX_PLAIN_BATCH_DATAGRAMS ==>
      && Pressed(run)
      && (r.Err? ==> SendError(kernel, old(Mark(kernel.ticks, kernel.polls)), run, r.error, reserved))
    ensures Counted(counters, old(CountsIn(counters)), run)
  {
    hide OffersRest, AcceptedOver, PartialsOver, Onward, Pressed, StoppedBy, GaveUp, Scripted, Chunks, FullPrefix;
    run := [];
    ghost var mark := Mark(kernel.ticks, kernel.polls);
    NoCalls(transmit.Datagrams());
    ConcatEmpty(kernel.log);
    var borrowed := transmit.Borrow();
    if borrowed.Err? {
      r := Err(borrowed.error);
      return;
    }
    var first;
    first, run := FirstAttempt(kernel, counters, transmit);
    if first.Err? {
      r := Err(first.error);
      CallError(kernel, mark, run, first.error, reserved);
      return;
    }
    if first.value == |transmit.Datagrams()| {
      r := Ok(());
      return;
    }
    var owned := OwnedTransmit.CopySuffix(transmit, first.value, reserved);
    if owned.Err? {
      r := Err(owned.error);
      return;
    }
    r, run := Recover(kernel, counters, owned.value, transmit.Datagrams(), old(kernel.log), run,
                      old(CountsIn(counters)));
    if r.Err? {
      RecoveryError(kernel, mark, run, r.error, reserved);
    }
  }

  /**
    * The datagrams a send delivers are, in order and each once, a prefix of those the transmit's fields cut,
    * and each of its calls offers what was not delivered before.
    */
  lemma {:induction false} SendDelivers(
    transmit: PlainTransmit, datagrams: seq<Datagram>, run: seq<Attempt>, r: Result<(), ErrorKind>)
    requires SendResult(transmit, run, r) && transmit.Cuts(datagrams)
    ensures Delivered(run) <= datagrams
    ensures datagrams != [] ==> (r.Ok? <==> Delivered(run) == datagrams)
    ensures r == Err(WouldBlock) ==> Delivered(run) == []
    ensures r.Ok? ==> Concatenated(Delivered(run)) == transmit.contents
    ensures forall i :: 0 <= i < |run| ==> Offers(run, i, datagrams)
    ensures |datagrams| > 128 ==> r == Err(InvalidInput) && run == []
  {
    transmit.DatagramsCut(datagrams);
    DeliveredIsPrefix(run, datagrams);
    ChunksCover(transmit.contents, transmit.NormalizedSegmentSize());
    forall i | 0 <= i < |run| ensures Offers(run, i, datagrams) {
      OffersRestAt(run, datagrams, i);
      OffersRestBefore(run, datagrams, i);
      DeliveredIsPrefix(run[..i], datagrams);
    }
  }

  /** Call `i` offers what the calls before it have not delivered. */
  ghost predicate Offers(run: seq<Attempt>, i: nat, datagrams: seq<Datagram>)
    requires i < |run|
  {
    |Delivered(run[..i])| <= |datagrams| && run[i].offered == datagrams[|Delivered(run[..i])|..]
  }

  lemma {:induction false} OffersRestBefore(run: seq<Attempt>, datagrams: seq<Datagram>, n: nat)
    requires OffersRest(run, datagrams) && n <= |run|
    ensures OffersRest(run[..n], datagrams)
  {
    if n == |run| {
      TakeAll(run);
    } else {
      OffersRestBefore(run[..|run| - 1], datagrams, n);
      assert run[..|run| - 1][..n] == run[..n];
    }
  }
}
