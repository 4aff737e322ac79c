/**
  * The mixed listener's loop: it accepts control and relay connections, routes UDP datagrams to
  * associations, collects finished relays into a report and drains what still runs on shutdown.
  */
module Listener {
  import opened Core
  import opened Socks5
  import opened Routing
  import opened Wire
  import opened Accounts
  import Association

  /** An association's channel: whom it serves, the peer it was bound to, and what it was sent. */
  datatype Channel = Channel(
    controlIp: IpAddr,
    endpoint: ClientEndpoint,
    bound: Option<SocketAddr>,
    inbox: seq<Association.Inbound>)

  ghost predicate AllFrom(inbox: seq<Association.Inbound>, peer: SocketAddr) {
    forall i :: 0 <= i < |inbox| ==> inbox[i].peer == peer
  }

  /** A channel holds datagrams of one peer only, which its requested endpoint admits. */
  ghost predicate Unmixed(channel: Channel) {
    if channel.bound.None? then channel.inbox == []
    else
      && channel.endpoint.Matches(channel.controlIp, channel.bound.value)
      && AllFrom(channel.inbox, channel.bound.value)
  }

  ghost predicate AllUnmixed(channels: seq<Channel>) {
    forall c :: 0 <= c < |channels| ==> Unmixed(channels[c])
  }

  /** Every datagram in a channel's inbox came from the client that its control connection announced. */
  ghost predicate FromClients(channels: seq<Channel>) {
    forall c, i :: 0 <= c < |channels| && 0 <= i < |channels[c].inbox| ==>
      Announced(channels[c].controlIp, channels[c].endpoint, channels[c].inbox[i].peer)
  }

  lemma {:induction false} UnmixedFromClients(channels: seq<Channel>)
    requires AllUnmixed(channels)
    ensures FromClients(channels)
  {
    forall c, i | 0 <= c < |channels| && 0 <= i < |channels[c].inbox|
      ensures Announced(channels[c].controlIp, channels[c].endpoint, channels[c].inbox[i].peer)
    {
      assert Unmixed(channels[c]);
    }
  }

  /** The entry is the one of a channel that is not bound yet. */
  ghost predicate Waiting(entry: Pending, channels: seq<Channel>) {
    && entry.channel < |channels|
    && channels[entry.channel].bound.None?
    && channels[entry.channel].controlIp == entry.controlIp
    && channels[entry.channel].endpoint == entry.endpoint
  }

  /** Pending entries are unbound channels, once each; the route of a peer leads to a channel bound to it. */
  ghost predicate Consistent(table: Table, channels: seq<Channel>) {
    && (forall entry :: Count(table.pending, entry) <= 1)
    && (forall entry :: Count(table.pending, entry) > 0 ==> Waiting(entry, channels))
    && (forall peer :: peer in table.routes ==>
          table.routes[peer] < |channels| && channels[table.routes[peer]].bound == Some(peer))
    && AllUnmixed(channels)
  }

  /** The channels after a datagram was sent to one of them, or to none. */
  function Received(channels: seq<Channel>, to: Option<nat>, inbound: Association.Inbound): seq<Channel> {
    if to.None? || to.value >= |channels| then channels
    else
      var channel := channels[to.value];
      channels[to.value := channel.(bound := Some(inbound.peer), inbox := channel.inbox + [inbound])]
  }

  lemma {:induction false} CountPositive(entries: seq<Pending>, i: nat)
    requires i < |entries|
    ensures Count(entries, entries[i]) > 0
  {
    if i < |entries| - 1 {
      CountPositive(entries[..|entries| - 1], i);
    }
  }

  lemma {:induction false} CountTwice(entries: seq<Pending>, i: nat, j: nat)
    requires i < j < |entries| && entries[i] == entries[j]
    ensures Count(entries, entries[i]) >= 2
  {
    if j < |entries| - 1 {
      CountTwice(entries[..|entries| - 1], i, j);
    } else {
      CountPositive(entries[..|entries| - 1], i);
    }
  }

  /** Each channel's sender is in one place at most: one pending entry or one route. */
  lemma {:induction false} OnePlace(table: Table, channels: seq<Channel>)
    requires Consistent(table, channels)
    ensures forall i, j :: 0 <= i < j < |table.pending| ==> table.pending[i].channel != table.pending[j].channel
    ensures forall p, q :: p in table.routes && q in table.routes && p != q ==> table.routes[p] != table.routes[q]
    ensures forall i, p :: 0 <= i < |table.pending| && p in table.routes ==>
      table.pending[i].channel != table.routes[p]
  {
    forall i | 0 <= i < |table.pending| ensures Waiting(table.pending[i], channels) {
      CountPositive(table.pending, i);
    }
    forall i, j | 0 <= i < j < |table.pending| ensures table.pending[i].channel != table.pending[j].channel {
      if table.pending[i].channel == table.pending[j].channel {
        assert Waiting(table.pending[i], channels) && Waiting(table.pending[j], channels);
        assert table.pending[i] == table.pending[j];
        CountTwice(table.pending, i, j);
        assert false;
      }
    }
  }

  /** A datagram goes to at most one channel, one that admits its sender, and keeps the tables consistent. */
  lemma {:induction false} DeliveryConsistent(
    table: Table, channels: seq<Channel>, inbound: Association.Inbound, gone: Receivers)
    requires Consistent(table, channels) && gone.Valid()
    ensures var delivery := Deliver(table, inbound.peer, gone);
            && (delivery.to.Some? ==> delivery.to.value < |channels| && delivery.to.value !in gone.refused)
            && Consistent(delivery.table, Received(channels, delivery.to, inbound))
  {
    var peer := inbound.peer;
    var delivery := Deliver(table, peer, gone);
    forall entry ensures Count(delivery.table.pending, entry) <= Count(table.pending, entry) {
      QueueConserved(table, peer, gone, entry);
    }
    if !(peer in table.routes && table.routes[peer] !in gone.refused) {
      var n := Taker(table.pending, 0, peer, gone);
      if n < |table.pending| {
        var taken := table.pending[n];
        CountPositive(table.pending, n);
        QueueConserved(table, peer, gone, taken);
      }
    }
  }

  // ---------------------------------------------------------------- completion and the routes

  /** What the completion of an association does to the tables: it forgets the peer it reports. */
  function Complete(table: Table, peer: SocketAddr): Table {
    table.(routes := table.routes - {peer})
  }

  lemma {:induction false} CompletionConsistent(table: Table, channels: seq<Channel>, peer: SocketAddr)
    requires Consistent(table, channels)
    ensures Consistent(Complete(table, peer), channels)
  {
  }

  /**
    * When an association on `channel` completes and reports the peer it was bound to, no route leads to
    * it any more. Every other routed association that is alive still gets its client's next datagram if
    * and only if the peer's route was not that of such an association.
    */
  lemma {:induction false} CompletionKeepsRoutes(
    table: Table, channels: seq<Channel>, channel: nat, peer: SocketAddr, gone: Receivers)
    requires Consistent(table, channels) && gone.Valid()
    requires channel < |channels| && channels[channel].bound == Some(peer)
    ensures forall q :: q in Complete(table, peer).routes ==> Complete(table, peer).routes[q] != channel
    ensures (forall q :: q in table.routes && table.routes[q] != channel && table.routes[q] !in gone.refused ==>
               Deliver(Complete(table, peer), q, gone).to == Some(table.routes[q]))
       <==> (peer in table.routes && table.routes[peer] != channel ==> table.routes[peer] in gone.refused)
  {
    var after := Complete(table, peer);
    OnePlace(table, channels);
    if peer in table.routes && table.routes[peer] != channel && table.routes[peer] !in gone.refused {
      var n := Taker(after.pending, 0, peer, gone);
      assert n < |after.pending| ==> after.pending[n].channel != table.routes[peer];
      assert Deliver(after, peer, gone).to != Some(table.routes[peer]);
    }
  }

  /** Of two associations for the same client the second takes over from the first, and is forgotten with it. */
  lemma {:induction false} TakenOver(ip: IpAddr, port: u16)
    ensures var open := ClientEndpoint(None, 0);
            var start := Table([Pending(ip, open, 0), Pending(ip, open, 1)], map[]);
            var peer := SocketAddr(ip, port);
            var gone := Receivers({0}, {0});
            var first := Deliver(start, peer, Receivers({}, {}));
            var second := Deliver(first.table, peer, gone);
            && first.to == Some(0)
            && second.to == Some(1)
            && Deliver(second.table, peer, gone).to == Some(1)
            && Deliver(Complete(second.table, peer), peer, gone).to == None
  {
    var open := ClientEndpoint(None, 0);
    var peer := SocketAddr(ip, port);
    var gone := Receivers({0}, {0});
    var queue := [Pending(ip, open, 0), Pending(ip, open, 1)];
    var first := Deliver(Table(queue, map[]), peer, Receivers({}, {}));
    assert queue[1..] == [queue[1]] && queue[..0] == [];
    assert first.table.pending == [queue[1]];
    assert first.table.routes == map[peer := 0];
    var second := Deliver(first.table, peer, gone);
    assert Taker(first.table.pending, 0, peer, gone) == 0;
    assert first.table.pending[..0] == [];
    assert second.table.pending == [];
  }

  /** The association of a channel never meets a datagram of a second peer, so it skips none. */
  lemma {:induction false} NothingSkipped(channel: Channel, events: seq<Association.Event>, n: nat)
    requires Unmixed(channel) && channel.bound.Some? && n <= |events|
    requires forall i :: 0 <= i < n && events[i].Datagram? ==> events[i].inbound in channel.inbox
    ensures forall i :: 0 <= i < n && events[i].Datagram? ==>
      Association.FirstPeer(events, i + 1) == Some(events[i].inbound.peer)
    ensures Association.FirstPeer(events, n).Some? ==> Association.FirstPeer(events, n) == channel.bound
  {
    if n > 0 {
      NothingSkipped(channel, events, n - 1);
    }
  }

  lemma {:induction false} NothingConsistent()
    ensures Consistent(Table([], map[]), [])
  {
  }

  /** A new unbound channel at the end keeps the tables consistent. */
  lemma {:induction false} AddConsistent(table: Table, channels: seq<Channel>, entry: Pending)
    requires Consistent(table, channels) && entry.channel == |channels|
    ensures Consistent(table.(pending := table.pending + [entry]),
                       channels + [Channel(entry.controlIp, entry.endpoint, None, [])])
  {
    var pending := table.pending + [entry];
    assert pending[..|table.pending|] == table.pending;
    forall other ensures Count(pending, other) == Count(table.pending, other) + if other == entry then 1 else 0 {
    }
    assert Count(table.pending, entry) == 0;
  }

  // ---------------------------------------------------------------- the listener as a step machine

  /** What an accepted connection turns out to be. */
  datatype Connection =
    | TcpRelay
    | UdpAssociation(controlIp: IpAddr, endpoint: ClientEndpoint)
    | Refused

  datatype Event =
    | AcceptFails
    | ReceiveFails
    | Accepts(connection: Connection)
    | Receives(inbound: Association.Inbound, gone: Receivers)
    | TcpEnds(end: End)
    | UdpEnds(channel: nat, end: End)

  /** Everything the loop keeps, the channels with what was sent to them, and the relays that ended. */
  datatype State = State(
    table: Table,
    channels: seq<Channel>,
    report: Report,
    tcpRunning: nat,
    udpRunning: set<nat>,
    done: seq<Relayed>,
    lost: nat)

  function Started(): State {
    State(Table([], map[]), [], Report(0, 0, 0, 0, 0, 0, 0), 0, {}, [], 0)
  }

  /** A new connection: a relay task, an association with a new channel at the end of the queue, or a failure. */
  function Accepted(s: State, connection: Connection): State {
    var report := s.report.(accepted := s.report.accepted + 1);
    match connection
    case TcpRelay => s.(report := report, tcpRunning := s.tcpRunning + 1)
    case Refused => s.(report := RecordTcp(report, Failed))
    case UdpAssociation(controlIp, endpoint) => s.(
      report := report,
      table := s.table.(pending := s.table.pending + [Pending(controlIp, endpoint, |s.channels|)]),
      channels := s.channels + [Channel(controlIp, endpoint, None, [])],
      udpRunning := s.udpRunning + {|s.channels|})
  }

  function Routed(s: State, inbound: Association.Inbound, gone: Receivers): State {
    var delivery := Deliver(s.table, inbound.peer, gone);
    s.(table := delivery.table, channels := Received(s.channels, delivery.to, inbound))
  }

  function EndedTcp(s: State, end: End): State {
    if s.tcpRunning == 0 then s
    else s.(
      tcpRunning := s.tcpRunning - 1,
      report := RecordTcp(s.report, end),
      done := Done(s.done, end),
      lost := Losses(s.lost, end))
  }

  /** Only a completed association's peer is forgotten. */
  function EndedUdp(s: State, channel: nat, end: End): State {
    if channel !in s.udpRunning then s
    else s.(
      udpRunning := s.udpRunning - {channel},
      report := RecordUdp(s.report, end),
      table := if end.Completed? then Complete(s.table, end.peer) else s.table,
      done := Done(s.done, end),
      lost := Losses(s.lost, end))
  }

  /** What one event does. The end of a task that does not run is not an event, and changes nothing. */
  function Next(s: State, event: Event): State {
    match event
    case AcceptFails => s
    case ReceiveFails => s
    case Accepts(connection) => Accepted(s, connection)
    case Receives(inbound, gone) => Routed(s, inbound, gone)
    case TcpEnds(end) => EndedTcp(s, end)
    case UdpEnds(channel, end) => EndedUdp(s, channel, end)
  }

  /** The state after the first `n` events. */
  function After(events: seq<Event>, n: nat): State
    requires n <= |events|
  {
    if n == 0 then Started() else Next(After(events, n - 1), events[n - 1])
  }

  /** What every event keeps. */
  ghost predicate Sound(s: State) {
    && Consistent(s.table, s.channels)
    && (forall c :: c in s.udpRunning ==> c < |s.channels|)
    && Accounted(s.report, s.tcpRunning + |s.udpRunning|, s.lost, s.done)
  }

  ghost predicate Plausible(events: seq<Event>) {
    forall i :: 0 <= i < |events| && events[i].Receives? ==> events[i].gone.Valid()
  }

  lemma {:induction false} AcceptedSound(s: State, connection: Connection)
    requires Sound(s)
    ensures Sound(Accepted(s, connection))
  {
    if connection.UdpAssociation? {
      AddConsistent(s.table, s.channels, Pending(connection.controlIp, connection.endpoint, |s.channels|));
    }
  }

  lemma {:induction false} EndedTcpSound(s: State, end: End)
    requires Sound(s)
    ensures Sound(EndedTcp(s, end))
  {
    if s.tcpRunning > 0 {
      RecordAccounted(s.report, s.tcpRunning + |s.udpRunning|, s.lost, s.done, end);
    }
  }

  lemma {:induction false} EndedUdpSound(s: State, channel: nat, end: End)
    requires Sound(s)
    ensures Sound(EndedUdp(s, channel, end))
  {
    if channel in s.udpRunning {
      RecordAccounted(s.report, s.tcpRunning + |s.udpRunning|, s.lost, s.done, end);
      if end.Completed? {
        CompletionConsistent(s.table, s.channels, end.peer);
      }
    }
  }

  /** Every event keeps the tables consistent, the channels unmixed and the accounts balanced. */
  lemma {:induction false} NextSound(s: State, event: Event)
    requires Sound(s) && (event.Receives? ==> event.gone.Valid())
    ensures Sound(Next(s, event))
  {
    match event {
      case AcceptFails =>
      case ReceiveFails =>
      case Accepts(connection) => AcceptedSound(s, connection);
      case Receives(inbound, gone) => DeliveryConsistent(s.table, s.channels, inbound, gone);
      case TcpEnds(end) => EndedTcpSound(s, end);
      case UdpEnds(channel, end) => EndedUdpSound(s, channel, end);
    }
  }

  /** So it is in every state that events can lead to. */
  lemma {:induction false} AlwaysSound(events: seq<Event>, n: nat)
    requires Plausible(events) && n <= |events|
    ensures Sound(After(events, n)) && AllUnmixed(After(events, n).channels) && FromClients(After(events, n).channels)
  {
    hide FromClients;
    if n == 0 {
      NothingConsistent();
    } else {
      AlwaysSound(events, n - 1);
      NextSound(After(events, n - 1), events[n - 1]);
    }
    UnmixedFromClients(After(events, n).channels);
  }

  // ---------------------------------------------------------------- what a run has done

  function AcceptsIn(events: seq<Event>, n: nat): nat
    requires n <= |events|
  {
    if n == 0 then 0 else AcceptsIn(events, n - 1) + if events[n - 1].Accepts? then 1 else 0
  }

  /** The report counts the connections accepted. */
  lemma {:induction false} AcceptsCounted(events: seq<Event>, n: nat)
    requires n <= |events|
    ensures After(events, n).report.accepted == AcceptsIn(events, n)
  {
    if n > 0 {
      AcceptsCounted(events, n - 1);
    }
  }

  // ---------------------------------------------------------------- the run by its events

  predicate IsAssociation(event: Event) {
    event.Accepts? && event.connection.UdpAssociation?
  }

  function AssociationsIn(events: seq<Event>, n: nat): nat
    requires n <= |events|
  {
    if n == 0 then 0 else AssociationsIn(events, n - 1) + if IsAssociation(events[n - 1]) then 1 else 0
  }

  function TcpRelaysIn(events: seq<Event>, n: nat): nat
    requires n <= |events|
  {
    if n == 0 then 0 else TcpRelaysIn(events, n - 1) + if events[n - 1] == Accepts(TcpRelay) then 1 else 0
  }

  function RefusalsIn(events: seq<Event>, n: nat): nat
    requires n <= |events|
  {
    if n == 0 then 0 else RefusalsIn(events, n - 1) + if events[n - 1] == Accepts(Refused) then 1 else 0
  }

  /** The channels are those of the associations accepted, in order, each with the client it was accepted for. */
  ghost predicate AreAccepted(channels: seq<Channel>, events: seq<Event>, n: nat)
    requires n <= |events|
  {
    && |channels| == AssociationsIn(events, n)
    && forall i: nat :: i < n && IsAssociation(events[i]) ==> HasChannel(channels, AssociationsIn(events, i), events[i])
  }

  ghost predicate HasChannel(channels: seq<Channel>, c: nat, event: Event)
    requires IsAssociation(event)
  {
    && c < |channels|
    && channels[c].controlIp == event.connection.controlIp
    && channels[c].endpoint == event.connection.endpoint
  }

  lemma {:induction false} ChannelsStay(s: State, event: Event, c: nat)
    requires c < |s.channels|
    ensures c < |Next(s, event).channels|
    ensures Next(s, event).channels[c].controlIp == s.channels[c].controlIp
    ensures Next(s, event).channels[c].endpoint == s.channels[c].endpoint
  {
  }

  lemma {:induction false} ChannelsAccepted(events: seq<Event>, n: nat)
    requires n <= |events|
    ensures AreAccepted(After(events, n).channels, events, n)
  {
    if n > 0 {
      ChannelsAccepted(events, n - 1);
      var s, event := After(events, n - 1), events[n - 1];
      forall i: nat | i < n && IsAssociation(events[i])
        ensures HasChannel(Next(s, event).channels, AssociationsIn(events, i), events[i])
      {
        if i < n - 1 {
          assert HasChannel(s.channels, AssociationsIn(events, i), events[i]);
          ChannelsStay(s, event, AssociationsIn(events, i));
        }
      }
    }
  }

  /** The event is the end of a running relay, of TCP or of UDP. */
  ghost predicate EndsRelay(event: Event, s: State, tcp: bool) {
    if tcp then event.TcpEnds? && s.tcpRunning > 0 else event.UdpEnds? && event.channel in s.udpRunning
  }

  ghost function CompletionsIn(events: seq<Event>, n: nat, tcp: bool): nat
    requires n <= |events|
  {
    if n == 0 then 0
    else
      CompletionsIn(events, n - 1, tcp) +
      if EndsRelay(events[n - 1], After(events, n - 1), tcp) && events[n - 1].end.Completed? then 1 else 0
  }

  ghost function FailuresIn(events: seq<Event>, n: nat, tcp: bool): nat
    requires n <= |events|
  {
    if n == 0 then 0
    else
      FailuresIn(events, n - 1, tcp) +
      if EndsRelay(events[n - 1], After(events, n - 1), tcp) && events[n - 1].end.Failed? then 1 else 0
  }

  ghost function LossesIn(events: seq<Event>, n: nat, tcp: bool): nat
    requires n <= |events|
  {
    if n == 0 then 0
    else
      LossesIn(events, n - 1, tcp) +
      if EndsRelay(events[n - 1], After(events, n - 1), tcp) && events[n - 1].end.Lost? then 1 else 0
  }

  /** Every counter says how many events of its own kind there were, and what was accepted and did not end runs. */
  ghost predicate Booked(s: State, events: seq<Event>, n: nat)
    requires n <= |events|
  {
    && s.report.completedTcp == CompletionsIn(events, n, true)
    && s.report.failedTcp == FailuresIn(events, n, true) + RefusalsIn(events, n)
    && s.report.completedUdp == CompletionsIn(events, n, false)
    && s.report.failedUdp == FailuresIn(events, n, false)
    && s.tcpRunning + CompletionsIn(events, n, true) + FailuresIn(events, n, true) + LossesIn(events, n, true)
       == TcpRelaysIn(events, n)
    && |s.udpRunning| + CompletionsIn(events, n, false) + FailuresIn(events, n, false) + LossesIn(events, n, false)
       == AssociationsIn(events, n)
  }

  lemma {:induction false} AlwaysBooked(events: seq<Event>, n: nat)
    requires Plausible(events) && n <= |events|
    ensures Booked(After(events, n), events, n)
  {
    hide Next, Sound, FromClients, AllUnmixed;
    if n > 0 {
      AlwaysBooked(events, n - 1);
      AlwaysSound(events, n - 1);
      NextCounts(After(events, n - 1), events[n - 1]);
    }
  }

  function One(happened: bool): nat {
    if happened then 1 else 0
  }

  /** What one event adds to each counter. */
  lemma {:induction false} NextCounts(s: State, event: Event)
    requires Sound(s)
    ensures var after := Next(s, event);
            var tcp, udp := EndsRelay(event, s, true), EndsRelay(event, s, false);
            && after.report.completedTcp == s.report.completedTcp + One(tcp && event.end.Completed?)
            && after.report.failedTcp
                 == s.report.failedTcp + One(tcp && event.end.Failed?) + One(event == Accepts(Refused))
            && after.report.completedUdp == s.report.completedUdp + One(udp && event.end.Completed?)
            && after.report.failedUdp == s.report.failedUdp + One(udp && event.end.Failed?)
            && after.tcpRunning == s.tcpRunning + One(event == Accepts(TcpRelay)) - One(tcp)
            && |after.udpRunning| == |s.udpRunning| + One(IsAssociation(event)) - One(udp)
  {
    hide Consistent, Accounted, Deliver, Received;
  }

  /** The channel that event `i` sends a datagram to, if it does. */
  function SentTo(events: seq<Event>, i: nat): Option<nat>
    requires i < |events|
  {
    if events[i].Receives? then Deliver(After(events, i).table, events[i].inbound.peer, events[i].gone).to else None
  }

  /** The datagrams that the first `n` events send to a channel, in order. */
  function SentIn(events: seq<Event>, n: nat, channel: nat): seq<Association.Inbound>
    requires n <= |events|
  {
    if n == 0 then []
    else if SentTo(events, n - 1) == Some(channel) then SentIn(events, n - 1, channel) + [events[n - 1].inbound]
    else SentIn(events, n - 1, channel)
  }

  /** What a channel holds; a channel that does not exist yet holds nothing. */
  function Inbox(channels: seq<Channel>, channel: nat): seq<Association.Inbound> {
    if channel < |channels| then channels[channel].inbox else []
  }

  lemma {:induction false} InboxGrows(s: State, event: Event, channel: nat)
    requires Sound(s) && (event.Receives? ==> event.gone.Valid())
    ensures var before, after := Inbox(s.channels, channel), Inbox(Next(s, event).channels, channel);
            if event.Receives? && Deliver(s.table, event.inbound.peer, event.gone).to == Some(channel)
            then after == before + [event.inbound] else after == before
  {
    if event.Receives? {
      DeliveryConsistent(s.table, s.channels, event.inbound, event.gone);
    }
  }

  /**
    * A channel holds exactly the datagrams sent to it, in order. An event sends to one channel at most, so
    * no datagram is in two inboxes.
    */
  lemma {:induction false} InboxContents(events: seq<Event>, n: nat, channel: nat)
    requires Plausible(events) && n <= |events|
    ensures Inbox(After(events, n).channels, channel) == SentIn(events, n, channel)
  {
    if n > 0 {
      InboxContents(events, n - 1, channel);
      AlwaysSound(events, n - 1);
      InboxGrows(After(events, n - 1), events[n - 1], channel);
    }
  }

  lemma {:induction false} AllInboxes(events: seq<Event>, n: nat)
    requires Plausible(events) && n <= |events|
    ensures forall c: nat :: Inbox(After(events, n).channels, c) == SentIn(events, n, c)
  {
    forall c: nat ensures Inbox(After(events, n).channels, c) == SentIn(events, n, c) {
      InboxContents(events, n, c);
    }
  }

  /** The event makes the loop give up. */
  predicate Stops(event: Event, s: State) {
    match event
    case AcceptFails => true
    case ReceiveFails => true
    case Accepts(_) => false
    case Receives(_, _) => false
    case TcpEnds(end) => s.tcpRunning > 0 && end.Lost?
    case UdpEnds(channel, end) => channel in s.udpRunning && end.Lost?
  }

  function StopError(event: Event): ClientError {
    if event.AcceptFails? || event.ReceiveFails? then Io else Join
  }

  /** None of the first `n` events makes the loop give up. */
  ghost predicate GoesOn(events: seq<Event>, n: nat)
    requires n <= |events|
  {
    n == 0 || (GoesOn(events, n - 1) && !Stops(events[n - 1], After(events, n - 1)))
  }

  /** The event takes a running task down. */
  ghost predicate LosesTask(event: Event, s: State) {
    || (event.TcpEnds? && s.tcpRunning > 0 && event.end.Lost?)
    || (event.UdpEnds? && event.channel in s.udpRunning && event.end.Lost?)
  }

  /** None of the first `n` events is a failure of the listener itself or takes a task down. */
  ghost predicate Harmless(events: seq<Event>, n: nat)
    requires n <= |events|
  {
    forall i :: 0 <= i < n ==>
      !events[i].AcceptFails? && !events[i].ReceiveFails? && !LosesTask(events[i], After(events, i))
  }

  /** The loop goes on exactly through harmless events. */
  lemma {:induction false} GoesOnHarmless(events: seq<Event>, n: nat)
    requires n <= |events|
    ensures GoesOn(events, n) <==> Harmless(events, n)
  {
    hide After;
    if n > 0 {
      GoesOnHarmless(events, n - 1);
      var last, s := events[n - 1], After(events, n - 1);
      assert Stops(last, s) <==> last.AcceptFails? || last.ReceiveFails? || LosesTask(last, s);
    }
  }

  /** The error says what stopped the loop: a failure of its sockets, or a task taken down. */
  ghost predicate StoppedWith(events: seq<Event>, handled: nat, error: ClientError)
    requires handled <= |events|
  {
    && handled > 0 && Harmless(events, handled - 1)
    && var event := events[handled - 1];
    || ((event.AcceptFails? || event.ReceiveFails?) && error == Io)
    || (LosesTask(event, After(events, handled - 1)) && error == Join)
  }

  lemma {:induction false} LostByStop(s: State, event: Event)
    requires !Stops(event, s)
    ensures Next(s, event).lost == s.lost
  {
  }

  /** While the loop goes on no task is lost: accepted connections are completed, failed or running. */
  lemma {:induction false} NothingLost(events: seq<Event>, n: nat)
    requires n <= |events| && GoesOn(events, n)
    ensures After(events, n).lost == 0
  {
    if n > 0 {
      NothingLost(events, n - 1);
      LostByStop(After(events, n - 1), events[n - 1]);
    }
  }

  /** A run that goes on until shutdown accounts for everything once it is drained. */
  lemma {:induction false} Settles(events: seq<Event>, script: Shutdown)
    requires Plausible(events) && GoesOn(events, |events|)
    ensures var s := After(events, |events|);
            var ends := DrainEnds(script, s.tcpRunning, |s.udpRunning|);
            && s.lost == 0
            && Accounted(ends.Record(s.report), 0, ends.Lost(), s.done + ends.Completed())
            && ends.Record(s.report).accepted == AcceptsIn(events, |events|)
  {
    hide Next, Consistent;
    var s := After(events, |events|);
    AlwaysSound(events, |events|);
    NothingLost(events, |events|);
    AcceptsCounted(events, |events|);
    DrainAccounted(s.report, s.tcpRunning, |s.udpRunning|, 0, s.done, script);
  }

  // ---------------------------------------------------------------- a live route that is lost

  /** What two accepted associations of the same client leave. */
  lemma {:induction false} TwoAccepted(ip: IpAddr, open: ClientEndpoint)
    ensures var s := Accepted(Accepted(Started(), UdpAssociation(ip, open)), UdpAssociation(ip, open));
            s.table == Table([Pending(ip, open, 0), Pending(ip, open, 1)], map[]) && s.udpRunning == {0, 1}
  {
    var first := Accepted(Started(), UdpAssociation(ip, open));
    assert first.table.pending == [Pending(ip, open, 0)] && |first.channels| == 1;
  }

  /**
    * A run in which two clients behind one address open associations, the first of which stops listening,
    * so that the second takes over the peer, and then ends and reports that peer.
    */
  function Takeover(ip: IpAddr, port: u16, datagram: seq<byte>, relayed: Relayed): seq<Event> {
    var accept := Accepts(UdpAssociation(ip, ClientEndpoint(None, 0)));
    var inbound := Association.Inbound(SocketAddr(ip, port), datagram);
    var gone := Receivers({0}, {0});
    [accept, accept, Receives(inbound, Receivers({}, {})), Receives(inbound, gone),
     UdpEnds(0, Completed(SocketAddr(ip, port), relayed)), Receives(inbound, gone)]
  }

  /**
    * The condition of `CompletionKeepsRoutes` can fail: after the completion the next datagram of the client
    * reaches nobody, although the second association still runs and had the one before.
    */
  lemma {:induction false} CompletionDropsLiveRoute(ip: IpAddr, port: u16, datagram: seq<byte>, relayed: Relayed)
    ensures var events := Takeover(ip, port, datagram, relayed);
            && Plausible(events) && GoesOn(events, 6)
            && SentTo(events, 2) == Some(0)
            && SentTo(events, 3) == Some(1)
            && SentTo(events, 5) == None
            && 1 in After(events, 6).udpRunning
  {
    hide Deliver, Received;
    var events := Takeover(ip, port, datagram, relayed);
    var open, peer := ClientEndpoint(None, 0), SocketAddr(ip, port);
    var gone := Receivers({0}, {0});
    assert After(events, 1) == Accepted(Started(), UdpAssociation(ip, open));
    assert After(events, 2) == Accepted(After(events, 1), UdpAssociation(ip, open));
    TwoAccepted(ip, open);
    TakenOver(ip, port);
    var start := After(events, 2).table;
    var first := Deliver(start, peer, Receivers({}, {}));
    assert After(events, 3).table == first.table && After(events, 3).udpRunning == {0, 1};
    var second := Deliver(first.table, peer, gone);
    assert After(events, 4).table == second.table && After(events, 4).udpRunning == {0, 1};
    assert After(events, 5).table == Complete(second.table, peer) && After(events, 5).udpRunning == {1};
    assert After(events, 6).udpRunning == {1};
    assert GoesOn(events, 0) && GoesOn(events, 1) && GoesOn(events, 2);
    assert GoesOn(events, 3) && GoesOn(events, 4) && GoesOn(events, 5);
  }

  // ---------------------------------------------------------------- the loop

  class Listener {
    const router: Router
    var report: Report
    var tcpRunning: nat
    var udpRunning: set<nat>
    var nextChannel: nat
    ghost var channels: seq<Channel>
    ghost var done: seq<Relayed>
    ghost var lost: nat

    ghost function Now(): State reads this, router {
      State(Table(router.pending, router.routes), channels, report, tcpRunning, udpRunning, done, lost)
    }

    constructor ()
      ensures fresh(router) && Now() == Started() && nextChannel == 0
    {
      router := new Router();
      report := Report(0, 0, 0, 0, 0, 0, 0);
      tcpRunning, udpRunning, nextChannel := 0, {}, 0;
      channels, done, lost := [], [], 0;
    }

    /** A connection was accepted. */
    method Accept(connection: Connection)
      requires nextChannel == |channels|
      modifies this, router
      ensures Now() == Accepted(old(Now()), connection) && nextChannel == |channels|
    {
      report := report.(accepted := report.accepted + 1);
      match connection {
        case TcpRelay => tcpRunning := tcpRunning + 1;
        case Refused => report := RecordTcp(report, Failed);
        case UdpAssociation(controlIp, endpoint) =>
          udpRunning := udpRunning + {nextChannel};
          router.pending := router.pending + [Pending(controlIp, endpoint, nextChannel)];
          nextChannel := nextChannel + 1;
          channels := channels + [Channel(controlIp, endpoint, None, [])];
      }
    }

    /** A datagram arrived. */
    method Receive(inbound: Association.Inbound, gone: Receivers)
      modifies this`channels, router
      ensures Now() == Routed(old(Now()), inbound, gone) && |channels| == |old(channels)|
    {
      var to := router.Route(inbound.peer, gone);
      channels := Received(channels, to, inbound);
    }

    /** A TCP relay task ended. */
    method EndTcp(end: End)
      requires tcpRunning > 0
      modifies this`report, this`tcpRunning, this`done, this`lost
      ensures Now() == EndedTcp(old(Now()), end)
    {
      tcpRunning := tcpRunning - 1;
      report := RecordTcp(report, end);
      done := Done(done, end);
      lost := Losses(lost, end);
    }

    /** A UDP association's task ended. */
    method EndUdp(channel: nat, end: End)
      requires channel in udpRunning
      modifies this`report, this`udpRunning, this`done, this`lost, router
      ensures Now() == EndedUdp(old(Now()), channel, end)
    {
      udpRunning := udpRunning - {channel};
      if end.Completed? {
        router.routes := router.routes - {end.peer};
      }
      report := RecordUdp(report, end);
      done := Done(done, end);
      lost := Losses(lost, end);
    }

    /** One turn of the loop. A branch whose task set is empty is not selected. */
    method Turn(event: Event) returns (error: Option<ClientError>)
      requires nextChannel == |channels|
      modifies this, router
      ensures Now() == Next(old(Now()), event) && nextChannel == |channels|
      ensures error == if Stops(event, old(Now())) then Some(StopError(event)) else None
    {
      error := None;
      match event {
        case AcceptFails => error := Some(Io);
        case ReceiveFails => error := Some(Io);
        case Accepts(connection) => Accept(connection);
        case Receives(inbound, gone) => Receive(inbound, gone);
        case TcpEnds(end) =>
          if tcpRunning > 0 {
            EndTcp(end);
            error := if end.Lost? then Some(Join) else None;
          }
        case UdpEnds(channel, end) =>
          if channel in udpRunning {
            EndUdp(channel, end);
            error := if end.Lost? then Some(Join) else None;
          }
      }
    }

    /** The events until one of them stops the loop. */
    method Run(events: seq<Event>) returns (error: Option<ClientError>, handled: nat)
      requires Now() == Started() && nextChannel == 0
      modifies this, router
      ensures handled <= |events| && Now() == After(events, handled)
      ensures if error.None? then handled == |events| && GoesOn(events, handled)
              else
                && handled > 0 && GoesOn(events, handled - 1)
                && Stops(events[handled - 1], After(events, handled - 1))
                && error.value == StopError(events[handled - 1])
    {
      hide Next, Stops;
      handled := 0;
      while handled < |events|
        invariant handled <= |events| && GoesOn(events, handled)
        invariant Now() == After(events, handled) && nextChannel == |channels|
      {
        error := Turn(events[handled]);
        handled := handled + 1;
        if error.Some? {
          return;
        }
      }
      error := None;
    }

    /** After shutdown: collects TCP relays while they end within the grace period. */
    method DrainTcp(grace: seq<End>)
      modifies this`report, this`tcpRunning, this`done, this`lost
      ensures var ends := WithinGrace(grace, old(tcpRunning));
              && tcpRunning == old(tcpRunning) - |ends|
              && report == AllTcp(old(report), ends)
              && done == old(done) + CompletedIn(ends)
              && lost == old(lost) + LostIn(ends)
    {
      hide AllTcp, AllUdp, RecordTcp, RecordUdp, CompletedIn, LostIn, Done;
      ghost var ends: seq<End> := [];
      NoEnds(report);
      ConcatEmpty(done);
      var i := 0;
      while tcpRunning > 0 && i < |grace|
        invariant i <= |grace| && ends == grace[..i] && tcpRunning == old(tcpRunning) - i
        invariant report == AllTcp(old(report), ends)
        invariant done == old(done) + CompletedIn(ends) && lost == old(lost) + LostIn(ends)
      {
        OneMoreEnd(old(report), ends, grace[i]);
        DoneBehind(old(done), CompletedIn(ends), grace[i]);
        EndTcp(grace[i]);
        ends := ends + [grace[i]];
        i := i + 1;
      }
      TakeAll(grace);
      assert ends == WithinGrace(grace, old(tcpRunning));
    }

    /** The same for the associations, whichever of them ends; routes do not matter any more. */
    method DrainUdp(grace: seq<End>)
      modifies this`report, this`udpRunning, this`done, this`lost
      ensures var ends := WithinGrace(grace, |old(udpRunning)|);
              && |udpRunning| == |old(udpRunning)| - |ends|
              && report == AllUdp(old(report), ends)
              && done == old(done) + CompletedIn(ends)
              && lost == old(lost) + LostIn(ends)
    {
      hide AllTcp, AllUdp, RecordTcp, RecordUdp, CompletedIn, LostIn, Done;
      ghost var ends: seq<End> := [];
      NoEnds(report);
      ConcatEmpty(done);
      var i := 0;
      while udpRunning != {} && i < |grace|
        invariant i <= |grace| && ends == grace[..i] && |udpRunning| == |old(udpRunning)| - i
        invariant report == AllUdp(old(report), ends)
        invariant done == old(done) + CompletedIn(ends) && lost == old(lost) + LostIn(ends)
        decreases |grace| - i
      {
        OneMoreEnd(old(report), ends, grace[i]);
        DoneBehind(old(done), CompletedIn(ends), grace[i]);
        JoinOneUdp(grace[i]);
        ends := ends + [grace[i]];
        i := i + 1;
      }
      TakeAll(grace);
      assert ends == WithinGrace(grace, |old(udpRunning)|);
    }

    /** Takes any association's end into the report. */
    method JoinOneUdp(end: End)
      requires udpRunning != {}
      modifies this`report, this`udpRunning, this`done, this`lost
      ensures |udpRunning| == |old(udpRunning)| - 1 && report == RecordUdp(old(report), end)
      ensures done == Done(old(done), end) && lost == Losses(old(lost), end)
    {
      var channel := PickOne(udpRunning);
      udpRunning := udpRunning - {channel};
      report := RecordUdp(report, end);
      done := Done(done, end);
      lost := Losses(lost, end);
    }

    /** After the abort: collects every TCP relay that is left. */
    method JoinTcp(rest: nat -> End)
      modifies this`report, this`tcpRunning, this`done, this`lost
      ensures var ends := Listed(rest, old(tcpRunning));
              && tcpRunning == 0
              && report == AllTcp(old(report), ends)
              && done == old(done) + CompletedIn(ends)
              && lost == old(lost) + LostIn(ends)
    {
      hide AllTcp, AllUdp, RecordTcp, RecordUdp, CompletedIn, LostIn, Done;
      var joined: nat := 0;
      NoEnds(report);
      ConcatEmpty(done);
      while tcpRunning > 0
        invariant tcpRunning + joined == old(tcpRunning)
        invariant report == AllTcp(old(report), Listed(rest, joined))
        invariant done == old(done) + CompletedIn(Listed(rest, joined))
        invariant lost == old(lost) + LostIn(Listed(rest, joined))
      {
        OneMoreEnd(old(report), Listed(rest, joined), rest(joined));
        DoneBehind(old(done), CompletedIn(Listed(rest, joined)), rest(joined));
        EndTcp(rest(joined));
        joined := joined + 1;
      }
    }

    method JoinUdp(rest: nat -> End)
      modifies this`report, this`udpRunning, this`done, this`lost
      ensures var ends := Listed(rest, |old(udpRunning)|);
              && udpRunning == {}
              && report == AllUdp(old(report), ends)
              && done == old(done) + CompletedIn(ends)
              && lost == old(lost) + LostIn(ends)
    {
      hide AllTcp, AllUdp, RecordTcp, RecordUdp, CompletedIn, LostIn, Done;
      var joined: nat := 0;
      NoEnds(report);
      ConcatEmpty(done);
      while udpRunning != {}
        invariant |udpRunning| + joined == |old(udpRunning)|
        invariant report == AllUdp(old(report), Listed(rest, joined))
        invariant done == old(done) + CompletedIn(Listed(rest, joined))
        invariant lost == old(lost) + LostIn(Listed(rest, joined))
        decreases |udpRunning|
      {
        OneMoreEnd(old(report), Listed(rest, joined), rest(joined));
        DoneBehind(old(done), CompletedIn(Listed(rest, joined)), rest(joined));
        JoinOneUdp(rest(joined));
        joined := joined + 1;
      }
    }

    /** The whole shutdown drain. */
    method Drain(script: Shutdown)
      modifies this`report, this`tcpRunning, this`udpRunning, this`done, this`lost
      ensures tcpRunning == 0 && udpRunning == {}
      ensures var ends := DrainEnds(script, old(tcpRunning), |old(udpRunning)|);
              && report == ends.Record(old(report))
              && done == old(done) + ends.Completed()
              && lost == old(lost) + ends.Lost()
    {
      hide AllTcp, AllUdp, CompletedIn, LostIn, WithinGrace, Listed;
      DrainTcp(script.graceTcp);
      DrainUdp(script.graceUdp);
      JoinTcp(script.restTcp);
      JoinUdp(script.restUdp);
      ghost var ends := DrainEnds(script, old(tcpRunning), |old(udpRunning)|);
      FourBehind(old(done), CompletedIn(ends.graceTcp), CompletedIn(ends.graceUdp),
                 CompletedIn(ends.restTcp), CompletedIn(ends.restUdp));
    }
  }

  /** What the drain adds to the report's counters. */
  ghost predicate Drained(before: Report, after: Report, ends: Ends) {
    Raised(before, after, |CompletedIn(ends.graceTcp)| + |CompletedIn(ends.restTcp)|,
           FailedIn(ends.graceTcp) + FailedIn(ends.restTcp),
           |CompletedIn(ends.graceUdp)| + |CompletedIn(ends.restUdp)|,
           FailedIn(ends.graceUdp) + FailedIn(ends.restUdp))
  }

  lemma {:induction false} DrainMeans(before: Report, ends: Ends)
    ensures Drained(before, ends.Record(before), ends)
  {
    DrainCountedByKind(before, ends);
  }

  lemma {:induction false} StopMeans(events: seq<Event>, handled: nat)
    requires 0 < handled <= |events| && GoesOn(events, handled - 1)
    requires Stops(events[handled - 1], After(events, handled - 1))
    ensures StoppedWith(events, handled, StopError(events[handled - 1]))
  {
    hide After;
    GoesOnHarmless(events, handled - 1);
  }

  /**
    * The whole loop: the events until one of them stops it, or until shutdown and the drain. What it has
    * done is what the events and the drain's script say.
    */
  method RunLoopUntil(events: seq<Event>, script: Shutdown)
    returns (result: Result<Report, ClientError>, handled: nat,
             ghost channels: seq<Channel>, ghost done: seq<Relayed>, ghost lost: nat)
    requires Plausible(events)
    ensures handled <= |events| && channels == After(events, handled).channels
    ensures AllUnmixed(channels) && FromClients(channels) && AreAccepted(channels, events, handled)
    ensures forall c: nat :: Inbox(channels, c) == SentIn(events, handled, c)
    ensures result.Err? ==> StoppedWith(events, handled, result.error)
    ensures result.Ok? ==>
      var s := After(events, |events|);
      var ends := DrainEnds(script, s.tcpRunning, |s.udpRunning|);
      && handled == |events| && Harmless(events, handled)
      && Booked(s, events, handled) && Drained(s.report, result.value, ends)
      && result.value == ends.Record(s.report)
      && done == s.done + ends.Completed() && lost == ends.Lost()
      && Accounted(result.value, 0, lost, done)
      && result.value.accepted == AcceptsIn(events, |events|)
  {
    hide After, GoesOn, Stops, AcceptsIn, Accounted, Sound, AllUnmixed, DrainEnds, Inbox, SentIn,
      Ends.Record, Ends.Lost, Ends.Completed, Harmless, Booked, Drained, FromClients, AreAccepted, StoppedWith, StopError;
    var listener := new Listener();
    var error;
    error, handled := listener.Run(events);
    ghost var s := listener.Now();
    AlwaysSound(events, handled);
    AllInboxes(events, handled);
    ChannelsAccepted(events, handled);
    if error.Some? {
      StopMeans(events, handled);
      return Err(error.value), handled, s.channels, s.done, s.lost;
    }
    Settles(events, script);
    GoesOnHarmless(events, handled);
    AlwaysBooked(events, handled);
    DrainMeans(s.report, DrainEnds(script, s.tcpRunning, |s.udpRunning|));
    listener.Drain(script);
    return Ok(listener.report), handled, listener.channels, listener.done, listener.lost;
  }
}
