/**
  * How the mixed listener routes a UDP datagram to a SOCKS5 association: a sticky route for a known
  * peer, otherwise the first pending association whose requested endpoint admits the peer.
  */
module Routing {
  import opened Core
  import opened Socks5

  /** An association that has not heard from its client yet; `channel` names its datagram sender. */
  datatype Pending = Pending(controlIp: IpAddr, endpoint: ClientEndpoint, channel: nat)

  datatype Table = Table(pending: seq<Pending>, routes: map<SocketAddr, nat>)

  datatype Delivery = Delivery(table: Table, to: Option<nat>)

  /**
    * The channels whose receivers are gone while one datagram is routed: those in `closed` already when
    * they are looked at, those in `refused` by the time a datagram is sent to them.
    */
  datatype Receivers = Receivers(closed: set<nat>, refused: set<nat>) {
    ghost predicate Valid() {
      closed <= refused
    }
  }

  /** The scan puts this entry back into the queue. */
  predicate Skips(entry: Pending, peer: SocketAddr, gone: Receivers) {
    entry.channel !in gone.closed && !entry.endpoint.Matches(entry.controlIp, peer)
  }

  /** The scan ends at this entry. */
  predicate Takes(entry: Pending, peer: SocketAddr, gone: Receivers) {
    && entry.channel !in gone.closed
    && entry.endpoint.Matches(entry.controlIp, peer)
    && entry.channel !in gone.refused
  }

  function Skipped(pending: seq<Pending>, peer: SocketAddr, gone: Receivers): seq<Pending> {
    if pending == [] then []
    else
      var last := pending[|pending| - 1];
      var before := Skipped(pending[..|pending| - 1], peer, gone);
      if Skips(last, peer, gone) then before + [last] else before
  }

  /** The position from `i` on of the entry that takes the datagram. */
  function Taker(pending: seq<Pending>, i: nat, peer: SocketAddr, gone: Receivers): (n: nat)
    requires i <= |pending|
    ensures i <= n <= |pending|
    ensures n < |pending| ==> Takes(pending[n], peer, gone)
    ensures forall j :: i <= j < n ==> !Takes(pending[j], peer, gone)
    decreases |pending| - i
  {
    if i == |pending| || Takes(pending[i], peer, gone) then i else Taker(pending, i + 1, peer, gone)
  }

  /** The queue after entry `n` took the datagram, or after nobody did. */
  function Requeued(pending: seq<Pending>, n: nat, peer: SocketAddr, gone: Receivers): seq<Pending>
    requires n <= |pending|
  {
    (if n < |pending| then pending[n + 1..] else []) + Skipped(pending[..n], peer, gone)
  }

  function Deliver(table: Table, peer: SocketAddr, gone: Receivers): Delivery {
    if peer in table.routes && table.routes[peer] !in gone.refused then
      Delivery(table, Some(table.routes[peer]))
    else
      var routes := table.routes - {peer};
      var n := Taker(table.pending, 0, peer, gone);
      var pending := Requeued(table.pending, n, peer, gone);
      if n < |table.pending| then
        var channel := table.pending[n].channel;
        Delivery(Table(pending, routes[peer := channel]), Some(channel))
      else
        Delivery(Table(pending, routes), None)
  }

  /** Routing as the listener performs it on its queue and its map. */
  class Router {
    var pending: seq<Pending>
    var routes: map<SocketAddr, nat>

    constructor ()
      ensures pending == [] && routes == map[]
    {
      pending, routes := [], map[];
    }

    method Route(peer: SocketAddr, gone: Receivers) returns (to: Option<nat>)
      modifies this
      ensures Delivery(Table(pending, routes), to) == Deliver(Table(old(pending), old(routes)), peer, gone)
    {
      if peer in routes {
        if routes[peer] !in gone.refused {
          return Some(routes[peer]);
        }
        routes := routes - {peer};
      }
      to := Scan(peer, gone);
    }

    method Scan(peer: SocketAddr, gone: Receivers) returns (to: Option<nat>)
      modifies this
      ensures var was := old(pending);
              var n := Taker(was, 0, peer, gone);
              && pending == Requeued(was, n, peer, gone)
              && to == (if n < |was| then Some(was[n].channel) else None)
              && routes == (if n < |was| then old(routes)[peer := was[n].channel] else old(routes))
    {
      ghost var was, i := pending, 0;
      var unmatched: seq<Pending> := [];
      TakeAll(was);
      while pending != []
        invariant i <= |was| && pending == was[i..]
        invariant unmatched == Skipped(was[..i], peer, gone)
        invariant Taker(was, 0, peer, gone) == Taker(was, i, peer, gone)
        invariant routes == old(routes)
        decreases |pending|
      {
        var entry := pending[0];
        pending := pending[1..];
        SkippedStep(was, i, peer, gone);
        DropDrop(was, i, 1);
        i := i + 1;
        if entry.channel in gone.closed {
          continue;
        }
        if !entry.endpoint.Matches(entry.controlIp, peer) {
          unmatched := unmatched + [entry];
          continue;
        }
        if entry.channel !in gone.refused {
          routes := routes[peer := entry.channel];
          pending := pending + unmatched;
          return Some(entry.channel);
        }
      }
      pending := pending + unmatched;
      return None;
    }
  }

  lemma {:induction false} SkippedStep(pending: seq<Pending>, i: nat, peer: SocketAddr, gone: Receivers)
    requires i < |pending|
    ensures Skipped(pending[..i + 1], peer, gone)
         == if Skips(pending[i], peer, gone) then Skipped(pending[..i], peer, gone) + [pending[i]]
            else Skipped(pending[..i], peer, gone)
  {
    assert pending[..i + 1][..i] == pending[..i];
  }

  // ---------------------------------------------------------------- whom a datagram reaches

  /**
    * The peer is the client that a control connection announced: it has the connection's address, the
    * announced address if there is one, and the announced port unless that is zero.
    */
  ghost predicate Announced(controlIp: IpAddr, endpoint: ClientEndpoint, peer: SocketAddr) {
    && peer.ip == controlIp
    && (endpoint.ip.Some? ==> peer.ip == endpoint.ip.value)
    && (endpoint.port != 0 ==> peer.port == endpoint.port)
  }

  /** The entry's association lives and the peer is its client. */
  ghost predicate Expects(entry: Pending, peer: SocketAddr, gone: Receivers) {
    entry.channel !in gone.refused && Announced(entry.controlIp, entry.endpoint, peer)
  }

  /** Entry `n` is the first that expects the peer. */
  ghost predicate FirstExpecting(pending: seq<Pending>, n: nat, peer: SocketAddr, gone: Receivers) {
    && n < |pending| && Expects(pending[n], peer, gone)
    && forall j :: 0 <= j < n ==> !Expects(pending[j], peer, gone)
  }

  /** The peer has a route whose receiver lives. */
  ghost predicate HasRoute(table: Table, peer: SocketAddr, gone: Receivers) {
    peer in table.routes && table.routes[peer] !in gone.refused
  }

  /**
    * A datagram follows its peer's live route and changes nothing. Without one it reaches somebody if and only
    * if a pending entry expects the peer; the first such entry leaves the queue and becomes the route, and the
    * entries behind it come to the front.
    */
  lemma {:induction false} DeliveredTo(table: Table, peer: SocketAddr, gone: Receivers)
    requires gone.Valid()
    ensures var d := Deliver(table, peer, gone);
            if HasRoute(table, peer, gone) then d == Delivery(table, Some(table.routes[peer]))
            else
              && (d.to.Some? <==> exists i :: 0 <= i < |table.pending| && Expects(table.pending[i], peer, gone))
              && (d.to.None? ==> d.table.routes == table.routes - {peer})
              && (forall n: nat :: FirstExpecting(table.pending, n, peer, gone) ==>
                    && d.to == Some(table.pending[n].channel)
                    && d.table.routes == table.routes[peer := table.pending[n].channel]
                    && table.pending[n + 1..] <= d.table.pending)
  {
    hide Skipped;
    if !HasRoute(table, peer, gone) {
      var n := Taker(table.pending, 0, peer, gone);
      forall j | 0 <= j < |table.pending|
        ensures Takes(table.pending[j], peer, gone) <==> Expects(table.pending[j], peer, gone)
      {
      }
      forall m: nat | FirstExpecting(table.pending, m, peer, gone) ensures m == n {
      }
      if n < |table.pending| {
        var channel := table.pending[n].channel;
        assert (table.routes - {peer})[peer := channel] == table.routes[peer := channel];
      }
    }
  }

  /** While every receiver lives, the entries before the one that takes the datagram go to the end, in order. */
  lemma {:induction false} QueueTurns(table: Table, peer: SocketAddr, n: nat)
    requires !HasRoute(table, peer, Receivers({}, {}))
    requires if n < |table.pending| then FirstExpecting(table.pending, n, peer, Receivers({}, {}))
             else n == |table.pending| && forall j :: 0 <= j < n ==> !Expects(table.pending[j], peer, Receivers({}, {}))
    ensures Deliver(table, peer, Receivers({}, {})).table.pending
         == (if n < |table.pending| then table.pending[n + 1..] else []) + table.pending[..n]
  {
    var gone := Receivers({}, {});
    forall j | 0 <= j < |table.pending|
      ensures Takes(table.pending[j], peer, gone) <==> Expects(table.pending[j], peer, gone)
      ensures Skips(table.pending[j], peer, gone) <==> !Expects(table.pending[j], peer, gone)
    {
    }
    assert Taker(table.pending, 0, peer, gone) == n;
    AllSkipped(table.pending[..n], peer, gone);
  }

  lemma {:induction false} AllSkipped(pending: seq<Pending>, peer: SocketAddr, gone: Receivers)
    requires forall j :: 0 <= j < |pending| ==> Skips(pending[j], peer, gone)
    ensures Skipped(pending, peer, gone) == pending
  {
    if pending != [] {
      AllSkipped(pending[..|pending| - 1], peer, gone);
    }
  }

  // ---------------------------------------------------------------- conservation of the queue

  function Count(entries: seq<Pending>, entry: Pending): nat {
    if entries == [] then 0
    else Count(entries[..|entries| - 1], entry) + if entries[|entries| - 1] == entry then 1 else 0
  }

  lemma {:induction false} CountConcat(a: seq<Pending>, b: seq<Pending>, entry: Pending)
    ensures Count(a + b, entry) == Count(a, entry) + Count(b, entry)
  {
    if b == [] {
      ConcatEmpty(a);
    } else {
      var n := |b| - 1;
      ConcatLast(a, b);
      assert (a + b)[..|a + b| - 1] == a + b[..n];
      CountConcat(a, b[..n], entry);
    }
  }

  /** Of entries that all decline, those whose receiver lives are put back, each as often as it was there. */
  lemma {:induction false} SkippedCount(pending: seq<Pending>, peer: SocketAddr, gone: Receivers, entry: Pending)
    requires forall j :: 0 <= j < |pending| ==> !Takes(pending[j], peer, gone)
    ensures entry.channel !in gone.closed && entry.channel !in gone.refused ==>
      Count(Skipped(pending, peer, gone), entry) == Count(pending, entry)
    ensures Count(Skipped(pending, peer, gone), entry) <= Count(pending, entry)
  {
    if pending != [] {
      var n := |pending| - 1;
      SkippedCount(pending[..n], peer, gone, entry);
      CountConcat(Skipped(pending[..n], peer, gone), [pending[n]], entry);
      assert Count([pending[n]], entry) == Count([], entry) + if pending[n] == entry then 1 else 0 by {
        assert [pending[n]][..0] == [];
      }
    }
  }

  /** The number of entries equal to this one that the datagram took out of the queue. */
  ghost function Taken(table: Table, peer: SocketAddr, gone: Receivers, entry: Pending): nat {
    if peer in table.routes && table.routes[peer] !in gone.refused then 0
    else
      var n := Taker(table.pending, 0, peer, gone);
      if n < |table.pending| && table.pending[n] == entry then 1 else 0
  }

  /**
    * Routing conserves the live pending associations: each is in the queue as often as before, less the
    * one that took the datagram; nothing is added.
    */
  lemma {:induction false} QueueConserved(table: Table, peer: SocketAddr, gone: Receivers, entry: Pending)
    requires gone.Valid()
    ensures entry.channel !in gone.refused ==>
      Count(Deliver(table, peer, gone).table.pending, entry) == Count(table.pending, entry) - Taken(table, peer, gone, entry)
    ensures Count(Deliver(table, peer, gone).table.pending, entry) <= Count(table.pending, entry)
  {
    if !(peer in table.routes && table.routes[peer] !in gone.refused) {
      RequeuedCount(table.pending, peer, gone, entry);
    }
  }

  /** How often an entry that was looked at is put back: not if its receiver is gone or it announced the peer. */
  lemma {:induction false} PutBack(pending: seq<Pending>, peer: SocketAddr, gone: Receivers, entry: Pending)
    ensures Count(Skipped(pending, peer, gone), entry) ==
      if entry.channel in gone.closed || Announced(entry.controlIp, entry.endpoint, peer) then 0
      else Count(pending, entry)
  {
    if pending != [] {
      var n := |pending| - 1;
      PutBack(pending[..n], peer, gone, entry);
      CountConcat(Skipped(pending[..n], peer, gone), [pending[n]], entry);
      assert [pending[n]][..0] == [];
    }
  }

  /** The queue after a datagram without a live route: what was not looked at, and what is put back. */
  lemma {:induction false} QueueExactly(table: Table, peer: SocketAddr, gone: Receivers, entry: Pending)
    requires gone.Valid() && !HasRoute(table, peer, gone)
    ensures var n := Taker(table.pending, 0, peer, gone);
            var back := !(entry.channel in gone.closed || Announced(entry.controlIp, entry.endpoint, peer));
            Count(Deliver(table, peer, gone).table.pending, entry)
            == (if n < |table.pending| then Count(table.pending[n + 1..], entry) else 0)
               + (if back then Count(table.pending[..n], entry) else 0)
  {
    var n := Taker(table.pending, 0, peer, gone);
    PutBack(table.pending[..n], peer, gone, entry);
    var unseen := if n < |table.pending| then table.pending[n + 1..] else [];
    CountConcat(unseen, Skipped(table.pending[..n], peer, gone), entry);
  }

  lemma {:induction false} RequeuedCount(pending: seq<Pending>, peer: SocketAddr, gone: Receivers, entry: Pending)
    requires gone.Valid()
    ensures var n := Taker(pending, 0, peer, gone);
            var taken := if n < |pending| && pending[n] == entry then 1 else 0;
            var after := Count(Requeued(pending, n, peer, gone), entry);
            && (entry.channel !in gone.refused ==> after == Count(pending, entry) - taken)
            && after <= Count(pending, entry) - taken
  {
    var n := Taker(pending, 0, peer, gone);
    var skipped := Skipped(pending[..n], peer, gone);
    SkippedCount(pending[..n], peer, gone, entry);
    if n < |pending| {
      CountConcat(pending[n + 1..], skipped, entry);
      CountConcat(pending[..n + 1], pending[n + 1..], entry);
      assert pending[..n + 1] + pending[n + 1..] == pending;
      assert pending[..n + 1][..n] == pending[..n];
    } else {
      assert [] + skipped == skipped;
      TakeAll(pending);
    }
  }
}
