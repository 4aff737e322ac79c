/** The mixed listener's accounts: how the ends of relays are recorded in its report. */
module Accounts {
  import opened Core
  import opened Socks5

  /** The bytes a finished relay carried. */
  datatype Relayed = Relayed(up: nat, down: nat)

  datatype Report = Report(
    accepted: nat,
    completedTcp: nat,
    failedTcp: nat,
    completedUdp: nat,
    failedUdp: nat,
    bytesFromClient: nat,
    bytesFromTarget: nat)

  /** How a relay task ends: with a report, with an error, or lost to a panic or an abort. */
  datatype End = Completed(peer: SocketAddr, relayed: Relayed) | Failed | Lost

  function UpTotal(done: seq<Relayed>): nat {
    if done == [] then 0 else UpTotal(done[..|done| - 1]) + done[|done| - 1].up
  }

  function DownTotal(done: seq<Relayed>): nat {
    if done == [] then 0 else DownTotal(done[..|done| - 1]) + done[|done| - 1].down
  }

  /** Every accepted connection is accounted for, and the byte totals are those of the finished relays. */
  ghost predicate Accounted(report: Report, running: nat, lost: nat, done: seq<Relayed>) {
    && report.accepted
         == report.completedTcp + report.failedTcp + report.completedUdp + report.failedUdp + running + lost
    && report.completedTcp + report.completedUdp == |done|
    && report.bytesFromClient == UpTotal(done)
    && report.bytesFromTarget == DownTotal(done)
  }

  function RecordTcp(report: Report, end: End): Report {
    match end
    case Completed(_, relayed) => report.(
      completedTcp := report.completedTcp + 1,
      bytesFromClient := report.bytesFromClient + relayed.up,
      bytesFromTarget := report.bytesFromTarget + relayed.down)
    case Failed => report.(failedTcp := report.failedTcp + 1)
    case Lost => report
  }

  function RecordUdp(report: Report, end: End): Report {
    match end
    case Completed(_, relayed) => report.(
      completedUdp := report.completedUdp + 1,
      bytesFromClient := report.bytesFromClient + relayed.up,
      bytesFromTarget := report.bytesFromTarget + relayed.down)
    case Failed => report.(failedUdp := report.failedUdp + 1)
    case Lost => report
  }

  function Done(done: seq<Relayed>, end: End): seq<Relayed> {
    if end.Completed? then done + [end.relayed] else done
  }

  function Losses(lost: nat, end: End): nat {
    if end.Lost? then lost + 1 else lost
  }

  /** Recording the end of a running relay keeps the books. */
  lemma {:induction false} RecordAccounted(report: Report, running: nat, lost: nat, done: seq<Relayed>, end: End)
    requires Accounted(report, running, lost, done) && running > 0
    ensures Accounted(RecordTcp(report, end), running - 1, Losses(lost, end), Done(done, end))
    ensures Accounted(RecordUdp(report, end), running - 1, Losses(lost, end), Done(done, end))
  {
    if end.Completed? {
      assert (done + [end.relayed])[..|done|] == done;
    }
  }

  // ---------------------------------------------------------------- several ends in a row

  function AllTcp(report: Report, ends: seq<End>): Report {
    if ends == [] then report else RecordTcp(AllTcp(report, ends[..|ends| - 1]), ends[|ends| - 1])
  }

  function AllUdp(report: Report, ends: seq<End>): Report {
    if ends == [] then report else RecordUdp(AllUdp(report, ends[..|ends| - 1]), ends[|ends| - 1])
  }

  /** What the completed ones among the ends carried, in order. */
  function CompletedIn(ends: seq<End>): seq<Relayed> {
    if ends == [] then [] else Done(CompletedIn(ends[..|ends| - 1]), ends[|ends| - 1])
  }

  /** The number of lost ones among the ends. */
  function LostIn(ends: seq<End>): nat {
    if ends == [] then 0 else Losses(LostIn(ends[..|ends| - 1]), ends[|ends| - 1])
  }

  /** The number of failed ones among the ends. */
  function FailedIn(ends: seq<End>): nat {
    if ends == [] then 0 else FailedIn(ends[..|ends| - 1]) + if ends[|ends| - 1].Failed? then 1 else 0
  }

  /** The report with its four counts raised, whatever the bytes. */
  ghost predicate Raised(
    before: Report, after: Report, completedTcp: nat, failedTcp: nat, completedUdp: nat, failedUdp: nat)
  {
    && after.completedTcp == before.completedTcp + completedTcp
    && after.failedTcp == before.failedTcp + failedTcp
    && after.completedUdp == before.completedUdp + completedUdp
    && after.failedUdp == before.failedUdp + failedUdp
  }

  /** Each end is counted by its kind, and where it belongs. */
  lemma {:induction false} CountedByKind(report: Report, ends: seq<End>)
    ensures Raised(report, AllTcp(report, ends), |CompletedIn(ends)|, FailedIn(ends), 0, 0)
    ensures Raised(report, AllUdp(report, ends), 0, 0, |CompletedIn(ends)|, FailedIn(ends))
  {
    if ends != [] {
      CountedByKind(report, ends[..|ends| - 1]);
    }
  }

  lemma {:induction false} NoEnds(report: Report)
    ensures AllTcp(report, []) == report && AllUdp(report, []) == report && CompletedIn([]) == [] && LostIn([]) == 0
  {
  }

  lemma {:induction false} OneMoreEnd(report: Report, ends: seq<End>, end: End)
    ensures AllTcp(report, ends + [end]) == RecordTcp(AllTcp(report, ends), end)
    ensures AllUdp(report, ends + [end]) == RecordUdp(AllUdp(report, ends), end)
    ensures CompletedIn(ends + [end]) == Done(CompletedIn(ends), end)
    ensures LostIn(ends + [end]) == Losses(LostIn(ends), end)
  {
    assert (ends + [end])[..|ends|] == ends;
  }

  /** What comes before a list of completed relays does not change. */
  lemma {:induction false} DoneBehind(before: seq<Relayed>, done: seq<Relayed>, end: End)
    ensures Done(before + done, end) == before + Done(done, end)
  {
    if end.Completed? {
      ConcatAssociative(before, done, [end.relayed]);
    }
  }

  /** Recording any number of ends keeps the books: exactly the lost ones are missing from the report. */
  lemma {:induction false} AllAccounted(report: Report, running: nat, lost: nat, done: seq<Relayed>, ends: seq<End>)
    requires Accounted(report, running, lost, done) && |ends| <= running
    ensures Accounted(AllTcp(report, ends), running - |ends|, lost + LostIn(ends), done + CompletedIn(ends))
    ensures Accounted(AllUdp(report, ends), running - |ends|, lost + LostIn(ends), done + CompletedIn(ends))
  {
    if ends == [] {
      ConcatEmpty(done);
    } else {
      var n := |ends| - 1;
      var before, end := ends[..n], ends[n];
      AllAccounted(report, running, lost, done, before);
      RecordAccounted(AllTcp(report, before), running - n, lost + LostIn(before), done + CompletedIn(before), end);
      RecordAccounted(AllUdp(report, before), running - n, lost + LostIn(before), done + CompletedIn(before), end);
      DoneBehind(done, CompletedIn(before), end);
    }
  }

  lemma {:induction false} AcceptedStays(report: Report, ends: seq<End>)
    ensures AllTcp(report, ends).accepted == report.accepted && AllUdp(report, ends).accepted == report.accepted
  {
    if ends != [] {
      AcceptedStays(report, ends[..|ends| - 1]);
    }
  }

  // ---------------------------------------------------------------- the shutdown drain

  /** How tasks end once the loop is shut down: within the grace periods, and after the abort. */
  datatype Shutdown = Shutdown(graceTcp: seq<End>, graceUdp: seq<End>, restTcp: nat -> End, restUdp: nat -> End)

  /** The ends collected within a grace period, which the end of the list stands for, by the tasks running. */
  function WithinGrace(grace: seq<End>, running: nat): (ends: seq<End>)
    ensures |ends| <= running && ends <= grace
    ensures |ends| == running || ends == grace
  {
    if |grace| <= running then grace else grace[..running]
  }

  /** The ends of so many aborted tasks. */
  function Listed(rest: nat -> End, count: nat): (ends: seq<End>)
    ensures |ends| == count && forall i :: 0 <= i < count ==> ends[i] == rest(i)
  {
    if count == 0 then [] else Listed(rest, count - 1) + [rest(count - 1)]
  }

  /** All ends collected by the drain, loop by loop. */
  datatype Ends = Ends(graceTcp: seq<End>, graceUdp: seq<End>, restTcp: seq<End>, restUdp: seq<End>) {
    function Lost(): nat {
      LostIn(graceTcp) + LostIn(graceUdp) + LostIn(restTcp) + LostIn(restUdp)
    }

    function Completed(): seq<Relayed> {
      CompletedIn(graceTcp) + CompletedIn(graceUdp) + CompletedIn(restTcp) + CompletedIn(restUdp)
    }

    function Record(report: Report): Report {
      AllUdp(AllTcp(AllUdp(AllTcp(report, graceTcp), graceUdp), restTcp), restUdp)
    }
  }

  function DrainEnds(script: Shutdown, tcpRunning: nat, udpRunning: nat): Ends {
    var tcp, udp := WithinGrace(script.graceTcp, tcpRunning), WithinGrace(script.graceUdp, udpRunning);
    Ends(tcp, udp, Listed(script.restTcp, tcpRunning - |tcp|), Listed(script.restUdp, udpRunning - |udp|))
  }

  /**
    * After the drain nothing runs: the accepted connections that are neither completed nor failed are
    * exactly the tasks it lost, and the byte totals are those of all completed relays.
    */
  lemma {:induction false} DrainAccounted(
    report: Report, tcpRunning: nat, udpRunning: nat, lost: nat, done: seq<Relayed>, script: Shutdown)
    requires Accounted(report, tcpRunning + udpRunning, lost, done)
    ensures var ends := DrainEnds(script, tcpRunning, udpRunning);
            && Accounted(ends.Record(report), 0, lost + ends.Lost(), done + ends.Completed())
            && ends.Record(report).accepted == report.accepted
  {
    var ends := DrainEnds(script, tcpRunning, udpRunning);
    var a, b, c, d := ends.graceTcp, ends.graceUdp, ends.restTcp, ends.restUdp;
    var first := AllTcp(report, a);
    var second := AllUdp(first, b);
    var third := AllTcp(second, c);
    var running := tcpRunning + udpRunning;
    AllAccounted(report, running, lost, done, a);
    AllAccounted(first, running - |a|, lost + LostIn(a), done + CompletedIn(a), b);
    var doneAB := done + CompletedIn(a) + CompletedIn(b);
    AllAccounted(second, running - |a| - |b|, lost + LostIn(a) + LostIn(b), doneAB, c);
    AllAccounted(third, running - |a| - |b| - |c|, lost + LostIn(a) + LostIn(b) + LostIn(c), doneAB + CompletedIn(c), d);
    FourBehind(done, CompletedIn(a), CompletedIn(b), CompletedIn(c), CompletedIn(d));
    AcceptedStays(report, a);
    AcceptedStays(first, b);
    AcceptedStays(second, c);
    AcceptedStays(third, d);
  }

  /** The drain counts every end it collects by its kind, and where it belongs. */
  lemma {:induction false} DrainCountedByKind(report: Report, ends: Ends)
    ensures Raised(report, ends.Record(report),
                   |CompletedIn(ends.graceTcp)| + |CompletedIn(ends.restTcp)|,
                   FailedIn(ends.graceTcp) + FailedIn(ends.restTcp),
                   |CompletedIn(ends.graceUdp)| + |CompletedIn(ends.restUdp)|,
                   FailedIn(ends.graceUdp) + FailedIn(ends.restUdp))
  {
    var first := AllTcp(report, ends.graceTcp);
    var second := AllUdp(first, ends.graceUdp);
    var third := AllTcp(second, ends.restTcp);
    CountedByKind(report, ends.graceTcp);
    CountedByKind(first, ends.graceUdp);
    CountedByKind(second, ends.restTcp);
    CountedByKind(third, ends.restUdp);
  }

  lemma {:induction false} FourBehind(
    done: seq<Relayed>, a: seq<Relayed>, b: seq<Relayed>, c: seq<Relayed>, d: seq<Relayed>)
    ensures done + a + b + c + d == done + (a + b + c + d)
  {
    ConcatAssociative(done, a, b);
    ConcatAssociative(done, a + b, c);
    ConcatAssociative(done, a + b + c, d);
  }
}
