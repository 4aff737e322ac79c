/**
  * The UDP forwarder: one stream per local peer, finished when it has been idle for the timeout or when
  * the loop shuts down. Streams are numbered in the order in which they are opened.
  */
module UdpForward {
  import opened Core
  import opened Socks5

  /** The stream of one local peer, and when it was last used. */
  datatype Entry = Entry(stream: nat, lastUsed: nat)

  predicate Expired(entry: Entry, now: nat, timeout: nat) {
    now >= entry.lastUsed && now - entry.lastUsed >= timeout
  }

  /** The peers an idle sweep removes. */
  function ExpiredPeers(entries: map<SocketAddr, Entry>, now: nat, timeout: nat): set<SocketAddr> {
    set peer | peer in entries && Expired(entries[peer], now, timeout)
  }

  /** The association of a peer whose datagram was relayed: the one it had, or the next stream. */
  function Renewed(entries: map<SocketAddr, Entry>, peer: SocketAddr, next: nat, now: nat): map<SocketAddr, Entry> {
    entries[peer := Entry(if peer in entries then entries[peer].stream else next, now)]
  }

  /** Renewing again keeps the stream and only moves the time on. */
  lemma {:induction false} RenewedAgain(
    entries: map<SocketAddr, Entry>, peer: SocketAddr, next: nat, now: nat, other: nat, later: nat)
    ensures Renewed(Renewed(entries, peer, next, now), peer, other, later) == Renewed(entries, peer, next, later)
  {
  }

  // ---------------------------------------------------------------- the books

  /**
    * `owners` lists the peers that streams were opened for. An entry holds an unfinished stream of its own
    * peer, and every stream is in an entry, was finished, or is one of the `lost` whose finish failed.
    */
  ghost predicate Kept<P(!new)>(entries: map<P, Entry>, owners: seq<P>, finished: set<nat>, lost: nat) {
    && (forall p :: p in entries ==> Holds(entries[p], p, owners, finished))
    && (forall s :: s in finished ==> s < |owners|)
    && |owners| == |finished| + lost + |entries|
  }

  ghost predicate Holds<P(!new)>(entry: Entry, peer: P, owners: seq<P>, finished: set<nat>) {
    entry.stream < |owners| && owners[entry.stream] == peer && entry.stream !in finished
  }

  /** Two peers never share a stream. */
  lemma {:induction false} StreamsDiffer<P(!new)>(
    entries: map<P, Entry>, owners: seq<P>, finished: set<nat>, lost: nat, p: P, q: P)
    requires Kept(entries, owners, finished, lost) && p in entries && q in entries && p != q
    ensures entries[p].stream != entries[q].stream
  {
    assert Holds(entries[p], p, owners, finished) && Holds(entries[q], q, owners, finished);
  }

  lemma {:induction false} Removed<P(!new)>(
    entries: map<P, Entry>, owners: seq<P>, finished: set<nat>, lost: nat, peer: P)
    requires Kept(entries, owners, finished, lost) && peer in entries
    ensures Kept(entries - {peer}, owners, finished + {entries[peer].stream}, lost)
    ensures Kept(entries - {peer}, owners, finished, lost + 1)
  {
    var rest := entries - {peer};
    assert rest.Keys == entries.Keys - {peer};
    assert Holds(entries[peer], peer, owners, finished);
    forall p | p in rest ensures Holds(rest[p], p, owners, finished + {entries[peer].stream}) {
      StreamsDiffer(entries, owners, finished, lost, p, peer);
      assert Holds(entries[p], p, owners, finished);
    }
  }

  lemma {:induction false} Added<P(!new)>(
    entries: map<P, Entry>, owners: seq<P>, finished: set<nat>, lost: nat, peer: P, now: nat)
    requires Kept(entries, owners, finished, lost) && peer !in entries
    ensures Kept(entries[peer := Entry(|owners|, now)], owners + [peer], finished, lost)
  {
    var more := entries[peer := Entry(|owners|, now)];
    assert more.Keys == entries.Keys + {peer};
    forall p | p in more ensures Holds(more[p], p, owners + [peer], finished) {
      if p in entries {
        assert Holds(entries[p], p, owners, finished);
      }
    }
  }

  lemma {:induction false} Touched<P(!new)>(
    entries: map<P, Entry>, owners: seq<P>, finished: set<nat>, lost: nat, peer: P, now: nat)
    requires Kept(entries, owners, finished, lost) && peer in entries
    ensures Kept(entries[peer := entries[peer].(lastUsed := now)], owners, finished, lost)
  {
    var same := entries[peer := entries[peer].(lastUsed := now)];
    assert same.Keys == entries.Keys;
    forall p | p in same ensures Holds(same[p], p, owners, finished) {
      assert Holds(entries[p], p, owners, finished);
    }
  }

  /** The streams of these peers. */
  function StreamsOf<P(==,!new)>(entries: map<P, Entry>, peers: set<P>): set<nat> {
    set p | p in peers && p in entries :: entries[p].stream
  }

  /** The sweep has removed the peers in `taken` and still has those in `rest` to remove. */
  ghost predicate Swept<P(!new)>(
    was: map<P, Entry>, entries: map<P, Entry>, peers: set<P>, taken: set<P>, rest: set<P>)
  {
    entries == was - taken && taken <= peers && rest == peers - taken && peers <= was.Keys
  }

  lemma {:induction false} SweepStarts<P(!new)>(was: map<P, Entry>, peers: set<P>)
    requires peers <= was.Keys
    ensures Swept(was, was, peers, {}, peers)
  {
    assert was == was - {};
    assert peers == peers - {};
  }

  lemma {:induction false} SweepOne<P(!new)>(
    was: map<P, Entry>, entries: map<P, Entry>, peers: set<P>, taken: set<P>, rest: set<P>, peer: P)
    requires Swept(was, entries, peers, taken, rest) && peer in rest
    ensures peer in entries && entries[peer] == was[peer]
    ensures Swept(was, entries - {peer}, peers, taken + {peer}, rest - {peer})
    ensures StreamsOf(was, taken + {peer}) == StreamsOf(was, taken) + {was[peer].stream}
  {
    assert entries - {peer} == was - (taken + {peer});
    assert rest - {peer} == peers - (taken + {peer});
  }

  /** The log of finished streams names each stream of the set once. */
  ghost predicate Logs(log: seq<nat>, finished: set<nat>) {
    |log| == |finished| && forall s :: s in log <==> s in finished
  }

  /** So many streams, all different and all below a bound of the same number, are all there are. */
  lemma {:induction false} AllThere(streams: set<nat>, n: nat)
    requires |streams| == n && forall s :: s in streams ==> s < n
    ensures forall s :: 0 <= s < n ==> s in streams
  {
    if n > 0 {
      if n - 1 in streams {
        AllThere(streams - {n - 1}, n - 1);
      } else {
        TooMany(streams, n - 1);
      }
    }
  }

  lemma {:induction false} TooMany(streams: set<nat>, n: nat)
    requires forall s :: s in streams ==> s < n
    ensures |streams| <= n
  {
    if n == 0 {
      assert streams == {};
    } else {
      TooMany(streams - {n - 1}, n - 1);
    }
  }

  /** These streams can be finished. */
  ghost predicate Worked(streams: set<nat>, finishes: nat -> bool) {
    forall s :: s in streams ==> finishes(s)
  }

  // ---------------------------------------------------------------- the events

  datatype Report = Report(received: nat, completed: nat, bytesFromClient: nat, bytesFromTarget: nat)

  /** One datagram's journey: when it arrives, is sent and is answered, and whether each step succeeds. */
  datatype Journey = Journey(arrives: nat, sent: nat, answered: nat, opens: bool, relays: bool, response: nat)

  datatype Event =
    | Tick(now: nat)
    | ReceiveFails
    | Receives(peer: SocketAddr, payload: nat, journey: Journey)

  /** The associations, the peers that streams were opened for, and the streams that were finished. */
  datatype Books = Books(entries: map<SocketAddr, Entry>, owners: seq<SocketAddr>, finished: set<nat>)

  /** The idle sweep: exactly the associations of at least the timeout's age go, and their streams are finished. */
  function Sweep(b: Books, now: nat, timeout: nat): Books {
    if timeout == 0 then b
    else
      var expired := ExpiredPeers(b.entries, now, timeout);
      b.(entries := b.entries - expired, finished := b.finished + StreamsOf(b.entries, expired))
  }

  /** A datagram for an association that is there or can be opened: it is used until the answer, if there is one. */
  function Use(b: Books, peer: SocketAddr, journey: Journey): Books {
    var entries := Renewed(b.entries, peer, |b.owners|, if journey.relays then journey.answered else journey.sent);
    b.(entries := entries, owners := if peer in b.entries then b.owners else b.owners + [peer])
  }

  /** No stream for the peer can be had. */
  predicate Unopened(b: Books, peer: SocketAddr, journey: Journey) {
    peer !in b.entries && !journey.opens
  }

  /** What one event does, as long as streams can be finished. */
  function Next(b: Books, event: Event, timeout: nat): Books {
    match event
    case Tick(now) => Sweep(b, now, timeout)
    case ReceiveFails => b
    case Receives(peer, _, journey) =>
      var swept := Sweep(b, journey.arrives, timeout);
      if Unopened(swept, peer, journey) then swept else Use(swept, peer, journey)
  }

  /** The event makes the loop fail. */
  predicate Fails(b: Books, event: Event, timeout: nat) {
    match event
    case Tick(_) => false
    case ReceiveFails => true
    case Receives(peer, _, journey) =>
      Unopened(Sweep(b, journey.arrives, timeout), peer, journey) || !journey.relays
  }

  /** The streams that a sweep finishes. */
  function Expiring(b: Books, now: nat, timeout: nat): set<nat> {
    if timeout == 0 then {} else StreamsOf(b.entries, ExpiredPeers(b.entries, now, timeout))
  }

  /** The peer's association survives a sweep: it was used less than the timeout ago, or there is no timeout. */
  predicate Fresh(b: Books, peer: SocketAddr, now: nat, timeout: nat) {
    peer in b.entries && (timeout == 0 || now < b.entries[peer].lastUsed + timeout)
  }

  /** What a sweep leaves, by when the associations were last used. */
  lemma {:induction false} SweepLeaves(b: Books, now: nat, timeout: nat)
    ensures var swept := Sweep(b, now, timeout);
            && swept.owners == b.owners
            && (forall p :: p in swept.entries <==> Fresh(b, p, now, timeout))
            && (forall p :: p in swept.entries ==> swept.entries[p] == b.entries[p])
            && (forall p :: p in b.entries && !Fresh(b, p, now, timeout) ==> b.entries[p].stream in swept.finished)
            && (forall s :: s in swept.finished ==>
                  s in b.finished || exists p :: p in b.entries && !Fresh(b, p, now, timeout) && b.entries[p].stream == s)
  {
    if timeout > 0 {
      forall p | p in b.entries ensures Expired(b.entries[p], now, timeout) <==> !Fresh(b, p, now, timeout) {
      }
      forall p | p in b.entries && !Fresh(b, p, now, timeout)
        ensures b.entries[p].stream in StreamsOf(b.entries, ExpiredPeers(b.entries, now, timeout))
      {
        assert p in ExpiredPeers(b.entries, now, timeout);
      }
    }
  }

  /** A datagram that is relayed leaves its peer with the stream it has or a new one, last used at the answer. */
  lemma {:induction false} RelayedEntry(b: Books, peer: SocketAddr, payload: nat, journey: Journey, timeout: nat)
    requires !Fails(b, Receives(peer, payload, journey), timeout)
    ensures var next := Next(b, Receives(peer, payload, journey), timeout);
            var kept := Fresh(b, peer, journey.arrives, timeout);
            && peer in next.entries
            && next.entries[peer].lastUsed == journey.answered
            && next.entries[peer].stream == (if kept then b.entries[peer].stream else |b.owners|)
            && next.owners == (if kept then b.owners else b.owners + [peer])
            && forall p :: p != peer ==> (p in next.entries <==> Fresh(b, p, journey.arrives, timeout))
  {
    hide Sweep;
    SweepLeaves(b, journey.arrives, timeout);
  }

  /** An event makes the loop fail exactly if it is a failed receive, or a datagram that is not relayed. */
  lemma {:induction false} FailsMeans(b: Books, event: Event, timeout: nat)
    ensures Fails(b, event, timeout) <==> FailsBy(b, event, timeout)
  {
    hide Sweep;
    if event.Receives? {
      SweepLeaves(b, event.journey.arrives, timeout);
    }
  }

  ghost predicate FailsBy(b: Books, event: Event, timeout: nat) {
    || event.ReceiveFails?
    || (event.Receives? && !event.journey.relays)
    || (event.Receives? && !event.journey.opens && !Fresh(b, event.peer, event.journey.arrives, timeout))
  }

  /** Every stream that the event's sweep has to finish can be finished. */
  ghost predicate Works(b: Books, event: Event, timeout: nat, finishes: nat -> bool) {
    match event
    case Tick(now) => Worked(Expiring(b, now, timeout), finishes)
    case ReceiveFails => true
    case Receives(_, _, journey) => Worked(Expiring(b, journey.arrives, timeout), finishes)
  }

  /** The books after the first `n` events. */
  function After(events: seq<Event>, n: nat, timeout: nat): Books
    requires n <= |events|
  {
    if n == 0 then Books(map[], [], {}) else Next(After(events, n - 1, timeout), events[n - 1], timeout)
  }

  /** None of the first `n` events makes the loop fail. */
  predicate GoesOn(events: seq<Event>, n: nat, timeout: nat)
    requires n <= |events|
  {
    n == 0 || (GoesOn(events, n - 1, timeout) && !Fails(After(events, n - 1, timeout), events[n - 1], timeout))
  }

  /** None of the first `n` events is a failed receive or a datagram that is not relayed. */
  ghost predicate Unfailing(events: seq<Event>, n: nat, timeout: nat)
    requires n <= |events|
  {
    forall i :: 0 <= i < n ==> !FailsBy(After(events, i, timeout), events[i], timeout)
  }

  lemma {:induction false} GoesOnUnfailing(events: seq<Event>, n: nat, timeout: nat)
    requires n <= |events|
    ensures GoesOn(events, n, timeout) <==> Unfailing(events, n, timeout)
  {
    hide After, Fails, FailsBy;
    if n > 0 {
      GoesOnUnfailing(events, n - 1, timeout);
      FailsMeans(After(events, n - 1, timeout), events[n - 1], timeout);
    }
  }

  /** Every sweep of the first `n` events works. */
  ghost predicate AllWork(events: seq<Event>, n: nat, timeout: nat, finishes: nat -> bool)
    requires n <= |events|
  {
    n == 0 ||
    (AllWork(events, n - 1, timeout, finishes) &&
     Works(After(events, n - 1, timeout), events[n - 1], timeout, finishes))
  }

  /** Streams are never closed by being forgotten: their number only grows. */
  lemma {:induction false} StreamsGrow(events: seq<Event>, n: nat, m: nat, timeout: nat)
    requires n <= m <= |events|
    ensures |After(events, n, timeout).owners| <= |After(events, m, timeout).owners|
  {
    if n < m {
      StreamsGrow(events, n, m - 1, timeout);
    }
  }

  function PayloadBytes(events: seq<Event>, n: nat): nat
    requires n <= |events|
  {
    if n == 0 then 0 else PayloadBytes(events, n - 1) + if events[n - 1].Receives? then events[n - 1].payload else 0
  }

  function ResponseBytes(events: seq<Event>, n: nat): nat
    requires n <= |events|
  {
    if n == 0 then 0
    else ResponseBytes(events, n - 1) + if events[n - 1].Receives? then events[n - 1].journey.response else 0
  }

  function ReceivesIn(events: seq<Event>, n: nat): nat
    requires n <= |events|
  {
    if n == 0 then 0 else ReceivesIn(events, n - 1) + if events[n - 1].Receives? then 1 else 0
  }

  /** The report on `n` events, all of whose datagrams were relayed. */
  function ReportOn(events: seq<Event>, n: nat): Report
    requires n <= |events|
  {
    Report(ReceivesIn(events, n), ReceivesIn(events, n), PayloadBytes(events, n), ResponseBytes(events, n))
  }

  // ---------------------------------------------------------------- the forwarder

  class Forwarder {
    var entries: map<SocketAddr, Entry>
    var nextStream: nat
    var log: seq<nat>
    ghost var owners: seq<SocketAddr>
    ghost var finished: set<nat>
    ghost var lost: nat

    ghost predicate Valid() reads this {
      nextStream == |owners| && Kept(entries, owners, finished, lost) && Logs(log, finished)
    }

    ghost function Now(): Books reads this {
      Books(entries, owners, finished)
    }

    constructor ()
      ensures Valid() && Now() == Books(map[], [], {}) && lost == 0
    {
      entries, nextStream, log, owners, finished, lost := map[], 0, [], [], {}, 0;
    }

    /** Takes one peer's stream out and finishes it, which can fail. */
    method FinishPeer(peer: SocketAddr, finishes: nat -> bool) returns (ok: bool)
      requires Valid() && peer in entries && Worked(finished, finishes)
      modifies this
      ensures Valid() && entries == old(entries) - {peer} && owners == old(owners) && Worked(finished, finishes)
      ensures ok == finishes(old(entries)[peer].stream)
      ensures if ok then finished == old(finished) + {old(entries)[peer].stream} && lost == old(lost)
              else finished == old(finished) && lost == old(lost) + 1
    {
      Removed(entries, owners, finished, lost, peer);
      var stream := entries[peer].stream;
      ok := finishes(stream);
      entries := entries - {peer};
      if ok {
        finished := finished + {stream};
        log := log + [stream];
      } else {
        lost := lost + 1;
      }
    }

    /** Finishes the streams of these peers in any order, stopping at the first that fails. */
    method FinishPeers(peers: set<SocketAddr>, finishes: nat -> bool) returns (ok: bool)
      requires Valid() && peers <= entries.Keys && Worked(finished, finishes)
      modifies this
      ensures Valid() && owners == old(owners) && Worked(finished, finishes) && old(finished) <= finished
      ensures ok <==> forall p :: p in peers ==> finishes(old(entries)[p].stream)
      ensures ok ==>
        && entries == old(entries) - peers
        && finished == old(finished) + StreamsOf(old(entries), peers)
        && lost == old(lost)
      ensures !ok ==> lost == old(lost) + 1
    {
      hide Kept, Logs, StreamsOf, Worked;
      var rest := peers;
      ghost var was, taken: set<SocketAddr> := entries, {};
      ok := true;
      SweepStarts(was, peers);
      NoStreams(was);
      while ok && rest != {}
        invariant Valid() && owners == old(owners) && Worked(finished, finishes)
        invariant Swept(was, entries, peers, taken, rest)
        invariant lost == old(lost) + (if ok then 0 else 1) && old(finished) <= finished
        invariant ok ==> finished == old(finished) + StreamsOf(was, taken)
        invariant ok ==> forall p :: p in taken ==> finishes(was[p].stream)
        invariant !ok ==> exists p :: p in peers && !finishes(was[p].stream)
        decreases rest
      {
        var peer := PickOne(rest);
        SweepOne(was, entries, peers, taken, rest, peer);
        ok := FinishPeer(peer, finishes);
        rest, taken := rest - {peer}, taken + {peer};
      }
      assert ok ==> taken == peers;
    }

    /** The shutdown: finishes the stream of every association. */
    method FinishAll(finishes: nat -> bool) returns (ok: bool)
      requires Valid() && lost == 0 && Worked(finished, finishes)
      modifies this
      ensures owners == old(owners) && nextStream == |owners| && Logs(log, finished) && old(finished) <= finished
      ensures ok ==>
        && entries == map[] && |finished| == nextStream
        && forall s :: 0 <= s < nextStream ==> s in finished && finishes(s)
      ensures ok <==> Worked(StreamsOf(old(entries), old(entries).Keys), finishes)
      ensures !ok ==>
        && nextStream == |finished| + |entries| + 1
        && exists s :: 0 <= s < nextStream && !finishes(s)
    {
      ghost var was := entries;
      StreamsWork(was, was.Keys, finishes);
      ok := FinishPeers(entries.Keys, finishes);
      if ok {
        assert entries.Keys == {};
        AllThere(finished, nextStream);
      } else {
        ghost var p :| p in was && !finishes(was[p].stream);
        assert Holds(was[p], p, owners, old(finished));
      }
    }

    /** The idle sweep. */
    method FinishIdle(now: nat, timeout: nat, finishes: nat -> bool) returns (ok: bool)
      requires Valid() && Worked(finished, finishes)
      modifies this
      ensures Valid() && owners == old(owners) && Worked(finished, finishes) && old(finished) <= finished
      ensures ok <==> Worked(Expiring(old(Now()), now, timeout), finishes)
      ensures ok ==> Now() == Sweep(old(Now()), now, timeout) && lost == old(lost)
      ensures !ok ==> lost == old(lost) + 1 && exists s :: 0 <= s < nextStream && !finishes(s)
    {
      if timeout == 0 {
        return true;
      }
      ghost var was := entries;
      StreamsWork(was, ExpiredPeers(was, now, timeout), finishes);
      ok := FinishPeers(ExpiredPeers(entries, now, timeout), finishes);
      if !ok {
        ghost var p :| p in was && !finishes(was[p].stream);
        assert Holds(was[p], p, owners, old(finished));
      }
    }

    /** The stream of a peer, opened if it has none. */
    method Associate(peer: SocketAddr, now: nat, opens: bool) returns (ok: bool)
      requires Valid()
      modifies this
      ensures Valid() && finished == old(finished) && lost == old(lost)
      ensures ok == (opens || peer in old(entries))
      ensures if ok && peer !in old(entries)
              then entries == Renewed(old(entries), peer, old(nextStream), now) && owners == old(owners) + [peer]
              else entries == old(entries) && owners == old(owners)
    {
      if peer !in entries {
        if !opens {
          return false;
        }
        Added(entries, owners, finished, lost, peer, now);
        entries := entries[peer := Entry(nextStream, now)];
        nextStream := nextStream + 1;
        owners := owners + [peer];
      }
      return true;
    }

    /** Marks the peer's stream as used. */
    method Touch(peer: SocketAddr, now: nat)
      requires Valid() && peer in entries
      modifies this`entries
      ensures Valid() && entries == Renewed(old(entries), peer, nextStream, now)
    {
      Touched(entries, owners, finished, lost, peer, now);
      entries := entries[peer := entries[peer].(lastUsed := now)];
    }

    /** Relays one datagram on the peer's stream. */
    method Forward(peer: SocketAddr, journey: Journey) returns (ok: bool)
      requires Valid()
      modifies this
      ensures Valid() && lost == old(lost) && finished == old(finished)
      ensures ok == (!Unopened(old(Now()), peer, journey) && journey.relays)
      ensures Now() == if Unopened(old(Now()), peer, journey) then old(Now()) else Use(old(Now()), peer, journey)
    {
      hide Kept, Logs;
      ghost var was, next := entries, nextStream;
      ok := Associate(peer, journey.arrives, journey.opens);
      if !ok {
        return;
      }
      Touch(peer, journey.sent);
      RenewedAgain(was, peer, next, journey.arrives, nextStream, journey.sent);
      RenewedAgain(was, peer, next, journey.sent, nextStream, journey.answered);
      if journey.relays {
        Touch(peer, journey.answered);
      }
      ok := journey.relays;
    }

    /** One turn of the loop; it is broken if a stream could not be finished. */
    method Turn(event: Event, timeout: nat, finishes: nat -> bool) returns (ok: bool, broken: bool)
      requires Valid() && Worked(finished, finishes)
      modifies this
      ensures Valid() && Worked(finished, finishes) && (ok ==> !broken)
      ensures broken <==> !Works(old(Now()), event, timeout, finishes)
      ensures !broken ==>
        && Now() == Next(old(Now()), event, timeout)
        && ok == !Fails(old(Now()), event, timeout)
        && lost == old(lost)
      ensures broken ==>
        && owners == old(owners) && old(finished) <= finished && lost == old(lost) + 1
        && exists s :: 0 <= s < nextStream && !finishes(s)
    {
      hide Kept, Logs, Worked, Sweep, Use, Expiring;
      match event {
        case ReceiveFails => return false, false;
        case Tick(now) =>
          ok := FinishIdle(now, timeout, finishes);
          return ok, !ok;
        case Receives(peer, _, journey) =>
          ok := FinishIdle(journey.arrives, timeout, finishes);
          if !ok {
            return ok, true;
          }
          ok := Forward(peer, journey);
          return ok, false;
      }
    }

    /** The events until one of them fails; the report counts those that did not. */
    method Run(events: seq<Event>, timeout: nat, finishes: nat -> bool)
      returns (report: Report, handled: nat, ok: bool, broken: bool)
      requires Valid() && Now() == Books(map[], [], {}) && lost == 0
      modifies this
      ensures Valid() && Worked(finished, finishes) && handled <= |events|
      ensures !broken ==>
        lost == 0 && Now() == After(events, handled, timeout) && AllWork(events, handled, timeout, finishes)
      ensures broken ==>
        && !ok && handled > 0 && GoesOn(events, handled - 1, timeout)
        && AllWork(events, handled - 1, timeout, finishes)
        && !Works(After(events, handled - 1, timeout), events[handled - 1], timeout, finishes)
        && lost == 1 && owners == After(events, handled - 1, timeout).owners
        && After(events, handled - 1, timeout).finished <= finished
        && exists s :: 0 <= s < nextStream && !finishes(s)
      ensures ok ==> handled == |events| && GoesOn(events, handled, timeout) && report == ReportOn(events, handled)
      ensures !ok && !broken ==>
        && handled > 0 && GoesOn(events, handled - 1, timeout)
        && Fails(After(events, handled - 1, timeout), events[handled - 1], timeout)
    {
      hide Kept, Logs, Worked, Next, Fails, Works;
      NothingWorked(finishes);
      report, handled, ok, broken := Report(0, 0, 0, 0), 0, true, false;
      while handled < |events|
        invariant Valid() && Worked(finished, finishes) && handled <= |events| && lost == 0
        invariant Now() == After(events, handled, timeout) && GoesOn(events, handled, timeout)
        invariant ok && !broken && report == ReportOn(events, handled)
        invariant AllWork(events, handled, timeout, finishes)
      {
        var event := events[handled];
        ok, broken := Turn(event, timeout, finishes);
        handled := handled + 1;
        if !ok {
          return;
        }
        if event.Receives? {
          report := Report(report.received + 1, report.completed + 1,
                           report.bytesFromClient + event.payload, report.bytesFromTarget + event.journey.response);
        }
      }
    }
  }

  lemma {:induction false} StreamsWork<P(!new)>(entries: map<P, Entry>, peers: set<P>, finishes: nat -> bool)
    requires peers <= entries.Keys
    ensures Worked(StreamsOf(entries, peers), finishes) <==> forall p :: p in peers ==> finishes(entries[p].stream)
  {
    forall p | p in peers ensures entries[p].stream in StreamsOf(entries, peers) {
    }
  }

  lemma {:induction false} NothingWorked(finishes: nat -> bool)
    ensures Worked({}, finishes)
  {
  }

  lemma {:induction false} NoStreams<P(!new)>(entries: map<P, Entry>)
    ensures StreamsOf(entries, {}) == {}
  {
  }

  // ---------------------------------------------------------------- the loop

  /** Every stream opened over the events can be finished. */
  ghost predicate Finishable(events: seq<Event>, timeout: nat, finishes: nat -> bool) {
    forall s :: 0 <= s < |After(events, |events|, timeout).owners| ==> finishes(s)
  }

  /** A stream opened by some event that cannot be finished. */
  lemma {:induction false} Unfinishable(events: seq<Event>, n: nat, timeout: nat, finishes: nat -> bool)
    requires n <= |events|
    requires exists s :: 0 <= s < |After(events, n, timeout).owners| && !finishes(s)
    ensures !Finishable(events, timeout, finishes)
  {
    StreamsGrow(events, n, |events|, timeout);
  }

  /** After an event that fails the loop does not go on. */
  lemma {:induction false} FailureStops(events: seq<Event>, n: nat, m: nat, timeout: nat)
    requires n < m <= |events| && Fails(After(events, n, timeout), events[n], timeout)
    ensures !GoesOn(events, m, timeout)
  {
    if n < m - 1 {
      FailureStops(events, n, m - 1, timeout);
    }
  }

  /** What the loop leaves behind. */
  datatype Remains = Remains(streams: nat, live: nat, finished: seq<nat>)

  /** The streams opened are those finished, each once, those live, and so many that could not be finished. */
  ghost predicate Balanced(r: Remains, finished: set<nat>, lost: nat) {
    Logs(r.finished, finished) && r.streams == |r.finished| + r.live + lost
  }

  /**
    * The whole loop. It reports if and only if no event fails and every stream can be finished, and then
    * every stream opened was finished once. If an event fails, the streams opened are those finished and
    * those live. If a stream cannot be finished, there is one more, and the event after the first `handled`,
    * or the shutdown after all of them, is the first to have such a stream to finish.
    */
  method RunForwardLoop(events: seq<Event>, timeout: nat, finishes: nat -> bool)
    returns (result: Option<Report>, handled: nat, r: Remains, broken: bool)
    ensures handled <= |events|
    ensures result.Some? <==> Unfailing(events, |events|, timeout) && Finishable(events, timeout, finishes)
    ensures result.Some? ==>
      && !broken && handled == |events|
      && result.value.received == result.value.completed == ReceivesIn(events, |events|)
      && result.value.bytesFromClient == PayloadBytes(events, |events|)
      && result.value.bytesFromTarget == ResponseBytes(events, |events|)
      && r.streams == |After(events, |events|, timeout).owners| && r.live == 0
      && |r.finished| == r.streams && forall s :: 0 <= s < r.streams ==> s in r.finished
    ensures result.None? && !broken ==>
      var b := After(events, handled, timeout);
      && handled > 0 && Unfailing(events, handled - 1, timeout)
      && FailsBy(After(events, handled - 1, timeout), events[handled - 1], timeout)
      && AllWork(events, handled, timeout, finishes)
      && r.streams == |b.owners| && r.live == |b.entries| && Balanced(r, b.finished, 0)
    ensures broken ==>
      var b := After(events, handled, timeout);
      && Unfailing(events, handled, timeout) && AllWork(events, handled, timeout, finishes)
      && (if handled < |events| then !Works(b, events[handled], timeout, finishes)
          else !Worked(StreamsOf(b.entries, b.entries.Keys), finishes))
      && r.streams == |b.owners| && r.streams == |r.finished| + r.live + 1
      && (exists s :: 0 <= s < r.streams && !finishes(s))
      && exists finished :: b.finished <= finished && Logs(r.finished, finished)
  {
    hide After, GoesOn, Unfailing, Fails, FailsBy, AllWork, Works, StreamsOf;
    NothingWorked(finishes);
    var forwarder := new Forwarder();
    var report, ok;
    report, handled, ok, broken := forwarder.Run(events, timeout, finishes);
    result := None;
    GoesOnUnfailing(events, |events|, timeout);
    GoesOnUnfailing(events, handled, timeout);
    if broken {
      handled := handled - 1;
      GoesOnUnfailing(events, handled, timeout);
      Unfinishable(events, handled, timeout, finishes);
    } else if !ok {
      GoesOnUnfailing(events, handled - 1, timeout);
      FailureStops(events, handled - 1, |events|, timeout);
      FailsMeans(After(events, handled - 1, timeout), events[handled - 1], timeout);
    } else {
      ok := forwarder.FinishAll(finishes);
      if ok {
        result := Some(report);
      } else {
        broken := true;
        Unfinishable(events, handled, timeout, finishes);
      }
    }
    r := Remains(forwarder.nextStream, |forwarder.entries|, forwarder.log);
  }
}
