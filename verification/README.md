# Zuicity: a verified model

Zuicity is a proxy client and server over QUIC, with a benchmark suite of its own. This project models
the parts of it that are decided by its own logic rather than by the kernel or a library, and proves
what they promise:

- **The benchmark design** (`Williams.dfy`, `Schedule.dfy`, `SignTest.dfy`). The Williams square of the
  treatments, the schedule of rotations made from it, the checker of that schedule, and the one-sided
  exact sign test with the win and loss counts it is applied to. The square is proved balanced from its
  construction by modular differences; the checker's verdict is then determined for every list of
  implementations, every number of blocks and every truncation.
- **The ordinary-UDP batch sender** (`PlainBatch.dfy`, `PlainSend.dfy`). A grouped transmit is cut into
  datagrams and offered to a kernel that answers as it likes. The kernel is an arbitrary script of
  replies, readiness probes, poll results and clock readings; every call is logged. Whatever the
  script, what is accepted is a prefix of the datagrams, and the retries offer exactly the rest.
- **The mixed listener** (`Socks5.dfy`, `Association.dfy`, `Routing.dfy`,
  `Accounts.dfy`, `Listener.dfy`). The routing of
  SOCKS5 UDP datagrams to associations, the relay task of one association, the listener's accounts and
  its shutdown drain, each over arbitrary sequences of events. A channel's association meets one peer
  only, which links the router's invariant to the relay task.
- **The read-ahead relay** (`ReadAhead.dfy`). The two-buffer copy, for every order in which reads and
  writes complete, does what the plain copy loop does, on success and on every error.
- **The dialer and the UDP forwarder** (`Dialer.dfy`, `UdpForward.dfy`). Conservation of connections and
  of streams over arbitrary runs.
- **The wire codecs** (`Wire.dfy`, `Socks5.dfy`). Round trips in both directions, exact truncation
  answers, and incremental decoding of a stream of frames.
- **Text in and out** (`Fwmark.dfy`, `Userinfo.dfy`, `JsonLog.dfy`). The base-0 number parser against a
  grammar, percent-encoded credentials against a decoder, JSON log lines against a reader.

`Core.dfy` holds options, results and facts about sequences.

Where a property one would expect does not hold of the code, the model says so: the completion of an
association can take away the route of another one (`Listener.CompletionDropsLiveRoute`, with the exact
condition in `Listener.CompletionKeepsRoutes`), swapping the arms of a comparison exchanges wins and
losses exactly when the values of each rotation have the same sign and neither median is zero
(`SignTest.SwapArms`), and a failed header encoding has already written one byte (`Wire.EncodeHeaderTo`).

## Model

| member | source | states |
|---|---|---|
| `Williams.PlusIsModular` | scripts/benchmark/tcp_gso_suite.py:301-304 | the shift of an index is addition modulo the number of items |
| `Williams.SquareAt` | scripts/benchmark/tcp_gso_suite.py:298-304 | the item in each row and column of the square, by a formula of the two numbers alone |
| `Williams.WilliamsSequences` | scripts/benchmark/tcp_gso_suite.py:293-304 | the loops build the square of shifted base rows, and refuse odd counts and fewer than two items |
| `Williams.BaseIsPermutation` | scripts/benchmark/tcp_gso_suite.py:298-300 | the zig-zag base row holds every index at exactly one place |
| `Williams.StepsArePermutation` | scripts/benchmark/tcp_gso_suite.py:298-300 | for even n each non-zero difference occurs at exactly one place of the base row |
| `Williams.RowIsPermutation` | scripts/benchmark/tcp_gso_suite.py:301-304 | each row holds exactly the items, each once if they are distinct |
| `Williams.OnlyRow` | scripts/benchmark/tcp_gso_suite.py:293-304 | for every even number of distinct items there is one row that has a given item in a given column, and no other has |
| `Williams.OnlyPlace` | scripts/benchmark/tcp_gso_suite.py:293-304 | two distinct items are neighbours, in a given order, in one place of the square and nowhere else |
| `Williams.SquarePositionOnce` | scripts/benchmark/tcp_gso_suite.py:293-304 | for every even number of distinct items the counter finds each item in each column exactly once |
| `Williams.SquareCarryoverOnce` | scripts/benchmark/tcp_gso_suite.py:293-304 | the counter finds each ordered pair of distinct items adjacent exactly once |
| `Schedule.TreatmentsDistinct` | scripts/benchmark/tcp_gso_suite.py:285-290 | the treatments are distinct exactly when the identifiers are |
| `Schedule.BuildSchedule` | scripts/benchmark/tcp_gso_suite.py:307-334 | every rotation by its number alone: block, number in the block, and for each place the identifier and the mode, rows going upwards in odd blocks and downwards in even ones; the length by the limit, negative ones included; both errors |
| `Schedule.RotationsAt` | scripts/benchmark/tcp_gso_suite.py:314-333 | the rotation of each number, whatever the number of blocks |
| `Schedule.TallyRows` | scripts/benchmark/tcp_gso_suite.py:307-334 | an event that happens once in the square happens once a block, despite the reversals |
| `Schedule.RowsPrefix` | scripts/benchmark/tcp_gso_suite.py:334 | a cut anywhere leaves whole blocks and the start of the next one |
| `Schedule.CutValues` | scripts/benchmark/tcp_gso_suite.py:307-372 | the replications after a cut are the whole blocks, or two neighbouring numbers if a block is open |
| `Schedule.CountEvents` | scripts/benchmark/tcp_gso_suite.py:337-372 | the two counters hold, for every event, how often it happens |
| `Schedule.ValidateCompleteSchedule` | scripts/benchmark/tcp_gso_suite.py:337-372 | the checker's answer: empty, incomplete, or the report on the counts |
| `Schedule.VerdictMeans` | scripts/benchmark/tcp_gso_suite.py:337-372 | the answer by the rows: refused exactly if empty or if some rotation is not a rearrangement of a first one without repetitions; the report's numbers, and balanced exactly if there is one replication |
| `Schedule.SquareIsBalanced` | scripts/benchmark/tcp_gso_suite.py:293-304 | the square's rows are complete and each position and neighbour event happens once in it |
| `Schedule.WilliamsVerdict` | scripts/benchmark/tcp_gso_suite.py:337-372 | the verdict on the square's rows, whatever the items and wherever the rows are cut |
| `Schedule.CheckedSchedule` | scripts/benchmark/tcp_gso_suite.py:1070-1075 | building and checking, for every list of identifiers, block count and truncation: the errors, and balanced exactly when identifiers are distinct and whole blocks are kept |
| `Schedule.CheckedFullSchedule` | scripts/benchmark/tcp_gso_suite.py:1388-1392 | with b blocks and no truncation both balances hold and every replication is b |
| `SignTest.CombFactorial` | scripts/benchmark/tcp_gso_suite.py:726-730 | the binomial numbers of the recursion are those of the factorial formula |
| `SignTest.TailCountsOutcomes` | scripts/benchmark/tcp_gso_suite.py:726-730 | the tail numerator counts the win/loss outcomes with at least so many wins |
| `SignTest.OutcomesAreAll` | scripts/benchmark/tcp_gso_suite.py:726-730 | the outcomes counted are all sequences of that length, each once |
| `SignTest.TailWhole` | scripts/benchmark/tcp_gso_suite.py:726-730 | no wins required: the tail is 2^n |
| `SignTest.TailDecreases` | scripts/benchmark/tcp_gso_suite.py:726-730 | the tail is strictly decreasing in the number of wins |
| `SignTest.TailsOverlap` | scripts/benchmark/tcp_gso_suite.py:726-730 | the tails of w wins and of l wins add up to 2^n + C(n, w) |
| `SignTest.PValueCounts` | scripts/benchmark/tcp_gso_suite.py:726-730 | the p-value is the share of all win/loss outcomes with at least the observed wins, and none without untied rotations |
| `SignTest.SortedValues` | scripts/benchmark/tcp_gso_suite.py:722-723 | sorting for the median puts the values in order and keeps how many are below and above any number |
| `SignTest.AnyOrder` | scripts/benchmark/tcp_gso_suite.py:722-723 | the order in which measurements come makes no difference to the sorted values |
| `SignTest.MedianHalves` | scripts/benchmark/tcp_gso_suite.py:722-723 | no more than half of the measurements are below the median, and no more than half above it |
| `SignTest.MedianIsMiddle` | scripts/benchmark/tcp_gso_suite.py:722-723 | the median is the mean of the two measurements in the middle of the order, counted by rotations |
| `SignTest.ComparePaired` | scripts/benchmark/tcp_gso_suite.py:747-778 | the answer by the measurements: a win is a rotation whose measurement is the better one in the given direction, a loss the opposite, a tie an equal one; both medians; the p-value as a share of outcomes; the error without common rotations and every division by zero, by a value or by the median |
| `SignTest.MoreWinsStronger` | scripts/benchmark/tcp_gso_suite.py:726-778 | among as many untied rotations more wins give a strictly smaller p-value |
| `SignTest.SwapArms` | scripts/benchmark/tcp_gso_suite.py:747-778 | swapping the arms gives an answer with medians, wins and losses exchanged if and only if the two values of each rotation have the same sign and neither median is zero |
| `SignTest.SwappedPValues` | scripts/benchmark/tcp_gso_suite.py:726-778 | the p-values of the exchanged answers and how they add up |
| `SignTest.SwapFailsOnMixedSigns` | scripts/benchmark/tcp_gso_suite.py:747-778 | a rotation with values of opposite sign that is a loss both ways |
| `SignTest.SwapFailsOnZero` | scripts/benchmark/tcp_gso_suite.py:747-778 | a zero value can be compared in one direction only |
| `SignTest.SwapFailsOnZeroMedian` | scripts/benchmark/tcp_gso_suite.py:763-769 | values of the same sign in every rotation whose median is zero, so that there is no answer |
| `PlainBatch.ChunksOfSuffix` | crates/zuicity-transport/src/udp_plain_batch.rs:55-65 | cutting a suffix that starts on a boundary gives the tail of the cut |
| `PlainBatch.ChunksCover` | crates/zuicity-transport/src/udp_plain_batch.rs:55-65 | the datagrams put together are the contents |
| `PlainBatch.ChunkSizes` | crates/zuicity-transport/src/udp_plain_batch.rs:55-83 | every datagram is full but the last, which is not longer |
| `PlainBatch.ChunkAt` | crates/zuicity-transport/src/udp_plain_batch.rs:55-57 | piece i lies between i and i + 1 sizes, cut off at the end of the contents |
| `PlainBatch.ChunkTotal` | crates/zuicity-transport/src/udp_plain_batch.rs:55-65 | the number of pieces is the quotient rounded up |
| `PlainBatch.PlainTransmit.DatagramsCut` | crates/zuicity-transport/src/udp_plain_batch.rs:55-82 | the datagrams by the transmit's fields: cut at the multiples of the segment size, zero counting as one, or all in one without a size; there is no other way to cut |
| `PlainBatch.PlainTransmit.DatagramsOfSuffix` | crates/zuicity-transport/src/udp_plain_batch.rs:55-123 | dropping datagrams leaves the other datagrams with their boundaries |
| `PlainBatch.FullPrefixIsLongest` | crates/zuicity-transport/src/udp_plain_batch.rs:67-77 | the accepted prefix is the longest one of full lengths |
| `PlainBatch.OwnedTransmit.CopySuffix` | crates/zuicity-transport/src/udp_plain_batch.rs:100-123 | the owned copy holds exactly the datagrams after the count, or the error |
| `PlainBatch.OwnedTransmit.Advance` | crates/zuicity-transport/src/udp_plain_batch.rs:139-147 | the cursor moves within the contents or not at all |
| `PlainBatch.BatchProgress.CommitPrefix` | crates/zuicity-transport/src/udp_plain_batch.rs:208-227 | committing drops exactly the prefix and tells completion from progress |
| `PlainBatch.BatchProgress.RecordSent` | crates/zuicity-transport/src/udp_plain_batch.rs:197-206 | the full prefix of the lengths leaves, short lengths and no progress are errors |
| `PlainBatch.GroupsFit` | crates/zuicity-transport/src/udp_modes.rs:36-79 | a transmit within the advertised segments fits the 128 slots for every environment value and mode |
| `PlainSend.FillSlots` | crates/zuicity-transport/src/udp_plain_syscall.rs:149-185 | the fixed arrays hold all datagrams or the call fails |
| `PlainSend.AttemptOnce` | crates/zuicity-transport/src/udp_plain_syscall.rs:83-94 | one call, counted and logged with the kernel's next reply, and what that reply means |
| `PlainSend.ProbeAndCall` | crates/zuicity-transport/src/udp_plain_syscall.rs:60-66 | a socket that has blocked is probed before the call |
| `PlainSend.TryAttempt` | crates/zuicity-transport/src/udp_plain_syscall.rs:51-81 | at most nine calls, all with the same datagrams, only the last can take any; it gives up at the eighth interruption and at the second block, a failed probe counting as one, and not before; every call after a block has a probe of its own that found the socket ready; its result and the script read are those of the attempt's rules |
| `PlainSend.WaitWritable` | crates/zuicity-transport/src/udp_plain_syscall.rs:105-147 | for every clock that does not go back and does not stop short: it ends; success is exactly a writable poll after spurious ones, before the deadline; every error by the last poll's flags or the deadline |
| `PlainSend.OffersRestAt` | crates/zuicity-transport/src/udp_plain_direct.rs:11-55 | every call of a run offers exactly what the calls before it left |
| `PlainSend.DeliveredIsPrefix` | crates/zuicity-transport/src/udp_plain_direct.rs:11-55 | what is accepted in full is, in order and without repetition, a prefix of the datagrams |
| `PlainSend.RecordAccepted` | crates/zuicity-transport/src/udp_plain_direct.rs:57-67 | the counters grow by what was accepted, partial attempts by one |
| `PlainSend.RecordAnswer` | crates/zuicity-transport/src/udp_plain_direct.rs:46-48 | an answer takes its full prefix off the owned suffix and counts it |
| `PlainSend.RetryStep` | crates/zuicity-transport/src/udp_plain_direct.rs:31-48 | what one more attempt adds to a run and leaves of the datagrams |
| `PlainSend.OnwardAttempt` | crates/zuicity-transport/src/udp_plain_direct.rs:18-48 | when a run goes on after an attempt, and which error it stops with |
| `PlainSend.OnwardAt` | crates/zuicity-transport/src/udp_plain_direct.rs:18-48 | each call of a run that goes on took datagrams in full, or was interrupted or blocked |
| `PlainSend.RetrySuffix` | crates/zuicity-transport/src/udp_plain_direct.rs:31-53 | one retry keeps the run in order and the rest owned; a blocked one takes nothing; its error is that of its last call |
| `PlainSend.CompleteSuffix` | crates/zuicity-transport/src/udp_plain_direct.rs:28-55 | the recovery loop ends and succeeds exactly when all is accepted, never with WouldBlock; its error is that of the last call or of the wait after it |
| `PlainSend.Send` | crates/zuicity-transport/src/udp_plain_direct.rs:11-55 | the datagrams are those the transmit's fields cut; the calls are answered by the kernel in order; Ok exactly on full acceptance, WouldBlock only on none, counters grown by what the calls did; every call before the last got on or was made again, and the error is that of the last call, of the wait after it, a millisecond or more after the recovery began or by its last poll, or want of memory |
| `PlainSend.SendDelivers` | crates/zuicity-transport/src/udp_plain_direct.rs:11-55 | exactly-once, in-order delivery of the datagrams the fields cut, over the whole send; each call offers what was not delivered; all the bytes on success, and more than 128 datagrams are refused without a call |
| `Wire.EncodeRuntimeMetadata` | crates/zuicity-protocol/src/lib.rs:342-368 | the bytes put into the buffer, or the error with the buffer untouched |
| `Wire.EncodeHeaderTo` | crates/zuicity-protocol/src/lib.rs:283-299 | header bytes of the encoded length; on a long domain the network byte is already written |
| `Wire.EncodeUdpDatagram` | crates/zuicity-protocol/src/lib.rs:310-324 | the frame's bytes, or an error that leaves the buffer untouched |
| `Wire.EncodeAuthentication` | crates/zuicity-protocol/src/lib.rs:430-440 | the authentication frame's bytes |
| `Wire.HeaderLayout` | crates/zuicity-protocol/src/lib.rs:283-299 | the bytes of a header by their places: network 1 or 3, type 1, 4 or 3, address or length and name, the port's high byte first |
| `Wire.FrameLayout` | crates/zuicity-protocol/src/lib.rs:310-324 | the bytes of a frame by their places: target, length with its high byte first, payload |
| `Wire.AuthenticationLayout` | crates/zuicity-protocol/src/lib.rs:430-440 | the fifty bytes of the frame by their places |
| `Wire.MetadataDecodes` | crates/zuicity-protocol/src/lib.rs:370-399 | an encoded target decodes to itself and its length, whatever follows |
| `Wire.MetadataReencodes` | crates/zuicity-protocol/src/lib.rs:342-399 | a decoded target encodes to exactly the bytes consumed |
| `Wire.MetadataExtends` | crates/zuicity-protocol/src/lib.rs:370-410 | more input does not change a decoded target |
| `Wire.MetadataTruncates` | crates/zuicity-protocol/src/lib.rs:370-410 | a strict prefix of an encoded target is truncated, with the numbers needed and available exactly |
| `Wire.MetadataRefused` | crates/zuicity-protocol/src/lib.rs:370-410 | exactly the unknown types are refused for good; every other input has a target or can be completed to one |
| `Wire.HeaderDecodes` | crates/zuicity-protocol/src/lib.rs:301-308 | an encoded header decodes to itself and the rest |
| `Wire.HeaderReencodes` | crates/zuicity-protocol/src/lib.rs:283-308 | a decoded header encodes to exactly the bytes in front of the rest |
| `Wire.HeaderExtends` | crates/zuicity-protocol/src/lib.rs:301-308 | more input only extends the rest |
| `Wire.HeaderRefused` | crates/zuicity-protocol/src/lib.rs:301-308 | an unknown network byte is reported before anything about the target |
| `Wire.HeaderTruncates` | crates/zuicity-protocol/src/lib.rs:301-308 | every strict prefix of a header is truncated, with the numbers exactly, and never asks for more than is missing |
| `Wire.FrameDecodes` | crates/zuicity-protocol/src/lib.rs:310-340 | an encoded datagram frame decodes to its target, payload and rest |
| `Wire.FrameReencodes` | crates/zuicity-protocol/src/lib.rs:310-340 | a decoded frame encodes to exactly the bytes in front of the rest |
| `Wire.FrameExtends` | crates/zuicity-protocol/src/lib.rs:326-340 | more input only extends the rest of a decoded frame |
| `Wire.FrameTruncates` | crates/zuicity-protocol/src/lib.rs:326-340 | every strict prefix of a frame is truncated, with the numbers exactly, and never asks for more than is missing |
| `Wire.StreamDecodes` | crates/zuicity-protocol/src/lib.rs:310-340 | the frames of any list, put together, decode to that list |
| `Wire.StreamReencodes` | crates/zuicity-protocol/src/lib.rs:310-340 | the frames decoded from any input and its remainder are that input again |
| `Wire.StreamIsIncremental` | crates/zuicity-protocol/src/lib.rs:326-340 | decoding in two portions gives the frames of decoding at once |
| `Wire.AuthenticationDecodes` | crates/zuicity-protocol/src/lib.rs:435-462 | an encoded authentication frame decodes to itself and the rest |
| `Wire.AuthenticationReencodes` | crates/zuicity-protocol/src/lib.rs:435-462 | a decoded authentication frame encodes to exactly the bytes consumed |
| `Wire.AuthenticationExtends` | crates/zuicity-protocol/src/lib.rs:443-462 | more input only extends the rest |
| `Wire.AuthenticationTruncates` | crates/zuicity-protocol/src/lib.rs:443-462 | short input is truncated, with the numbers needed and available |
| `Wire.AuthenticationRefused` | crates/zuicity-protocol/src/lib.rs:443-462 | a wrong version is reported before a wrong command |
| `Socks5.UdpDecodes` | crates/zuicity-client/src/lib.rs:1437-1511 | a relayed answer decodes to its address and payload |
| `Socks5.UdpReencodes` | crates/zuicity-client/src/lib.rs:1437-1511 | a datagram for an address is exactly the encoding of what it decodes to |
| `Socks5.DomainRequestDecodes` | crates/zuicity-client/src/lib.rs:1437-1492 | a domain request is accepted exactly when the name is valid UTF-8 |
| `Socks5.DomainReencodes` | crates/zuicity-client/src/lib.rs:1437-1492 | a datagram for a domain is exactly the request for what it decodes to, with a valid name |
| `Socks5.Utf8Exactly` | crates/zuicity-client/src/lib.rs:1467-1469 | the bytes accepted as a name are exactly the UTF-8 encodings of texts |
| `Socks5.UdpLayout` | crates/zuicity-client/src/lib.rs:1494-1511 | the bytes of a relayed answer by their places |
| `Association.StreamsBalance` | crates/zuicity-client/src/lib.rs:790-807 | streams opened are those finished and the one open |
| `Association.FinishedOnce` | crates/zuicity-client/src/lib.rs:790-831 | every opened stream but the open one is finished, none twice |
| `Association.Relay.Forward` | crates/zuicity-client/src/lib.rs:790-811 | the request goes out on a stream opened for its own target, a new one exactly when the target changes; exactly when it can be sent |
| `Association.Relay.AwaitAnswer` | crates/zuicity-client/src/lib.rs:812-825 | an answer, its bytes and the remote target are recorded exactly when it was delivered, and how each reply ends the loop |
| `Association.Relay.Serve` | crates/zuicity-client/src/lib.rs:790-825 | what a request makes of the loop, by the exchange, and the trace it leaves |
| `Association.Relay.RelayDatagram` | crates/zuicity-client/src/lib.rs:782-825 | datagrams of a second peer are skipped, malformed ones stop the relay, others are served; the step exactly |
| `Association.Relay.Turn` | crates/zuicity-client/src/lib.rs:770-828 | the step of one event exactly, and the trace that of the first peer's requests and answers |
| `Association.Relay.Run` | crates/zuicity-client/src/lib.rs:770-828 | the loop ends at the first event that does not let it go on, with the trace of exactly what was asked and answered |
| `Association.Relay.Close` | crates/zuicity-client/src/lib.rs:829-838 | the open stream is finished if it can be; the report or the error exactly |
| `Association.RelayAssociation` | crates/zuicity-client/src/lib.rs:755-838 | over every event sequence: it stops at the first event that does not pass; which last event each error has, and the report of an orderly end with its four values; a disciplined trace with one stream a run of equal targets, the requests in order and the answers delivered; every stream finished after an orderly end |
| `Association.StepMeans` | crates/zuicity-client/src/lib.rs:770-828 | what each event makes of the loop, by what it is: pass, leave, or one of three errors |
| `Association.EndMeans` | crates/zuicity-client/src/lib.rs:770-828 | where the loop ends, by the events before |
| `Association.OutcomeMeans` | crates/zuicity-client/src/lib.rs:770-838 | the result by the last event: each error exactly, and the report |
| `Association.ReadsOn` | crates/zuicity-client/src/lib.rs:782-825 | which events add a request or an answer, and which |
| `Association.FirstPeerIs` | crates/zuicity-client/src/lib.rs:782-788 | the peer served is the sender of the first datagram |
| `Association.EndsOnce` | crates/zuicity-client/src/lib.rs:770-828 | the event the loop ends at is the only such one |
| `Association.CleanEnd` | crates/zuicity-client/src/lib.rs:755-838 | an end with a report finished every stream opened, one for each run of equal targets |
| `Routing.Taker` | crates/zuicity-client/src/lib.rs:862-887 | the entry that takes the datagram is the first that lives and admits the peer |
| `Routing.Router.Scan` | crates/zuicity-client/src/lib.rs:861-888 | the queue after the scan: the unexamined entries, then the skipped live ones |
| `Routing.Router.Route` | crates/zuicity-client/src/lib.rs:842-889 | sticky route first, a dead one forgotten, then the queue |
| `Routing.DeliveredTo` | crates/zuicity-client/src/lib.rs:842-889 | by the fields: a live route is followed and nothing changes; otherwise somebody is reached if and only if a live pending association announced this peer, the first such one, which becomes the route |
| `Routing.QueueTurns` | crates/zuicity-client/src/lib.rs:861-888 | while all receivers live, the entries passed over go to the end of the queue in their order |
| `Routing.QueueConserved` | crates/zuicity-client/src/lib.rs:861-888 | live pending entries are conserved as a multiset, less the one that took the datagram |
| `Routing.QueueExactly` | crates/zuicity-client/src/lib.rs:861-888 | how often each entry is in the queue afterwards: entries whose receiver is gone and those that announced the peer are not put back |
| `Listener.OnePlace` | crates/zuicity-client/src/lib.rs:842-889 | each association's sender is in one pending entry or one route at most |
| `Listener.DeliveryConsistent` | crates/zuicity-client/src/lib.rs:842-889 | a datagram reaches at most one channel, one that admits its peer, and the tables stay consistent |
| `Listener.CompletionKeepsRoutes` | crates/zuicity-client/src/lib.rs:339-342 | a completed association is unrouted; every other live one still gets its client's next datagram if and only if the reported peer's route was not one of theirs |
| `Listener.TwoAccepted` | crates/zuicity-client/src/lib.rs:467-478 | what two accepted associations of the same client leave |
| `Listener.CompletionDropsLiveRoute` | crates/zuicity-client/src/lib.rs:305-379 | a run from the start in which a live association loses its route, so that its client's next datagram reaches nobody |
| `Listener.NothingSkipped` | crates/zuicity-client/src/lib.rs:778-788 | an association fed from its channel never meets a second peer |
| `Accounts.RecordAccounted` | crates/zuicity-client/src/lib.rs:1756-1776 | recording the end of a relay keeps the accounts |
| `Accounts.AllAccounted` | crates/zuicity-client/src/lib.rs:1756-1829 | recording any number of ends keeps them: exactly the lost ones are missing, and bytes are sums over the completed ones |
| `Accounts.CountedByKind` | crates/zuicity-client/src/lib.rs:1756-1776 | each of the four counters grows by the ends of its own kind only |
| `Accounts.DrainCountedByKind` | crates/zuicity-client/src/lib.rs:1778-1829 | the same over the whole drain |
| `Accounts.DrainAccounted` | crates/zuicity-client/src/lib.rs:1778-1829 | after the drain the shortfall is exactly the tasks that ended in a join error |
| `Listener.NextSound` | crates/zuicity-client/src/lib.rs:316-378 | every event keeps tables consistent, channels unmixed and accounts balanced |
| `Listener.AlwaysSound` | crates/zuicity-client/src/lib.rs:305-379 | so it is in every state that events can lead to, and every datagram in an inbox came from the address, and the port if one was named, that its association announced |
| `Listener.AcceptsCounted` | crates/zuicity-client/src/lib.rs:361-363 | the report counts the connections accepted |
| `Listener.AlwaysBooked` | crates/zuicity-client/src/lib.rs:316-378 | each counter is the number of events of its own kind, and what was accepted and did not end is running, for TCP and for UDP |
| `Listener.ChannelsAccepted` | crates/zuicity-client/src/lib.rs:361-376 | the channels are those of the associations accepted, in order, with the client each was accepted for |
| `Listener.GoesOnHarmless` | crates/zuicity-client/src/lib.rs:316-378 | the loop goes on exactly through events that are no failure of its sockets and take no task down |
| `Listener.InboxContents` | crates/zuicity-client/src/lib.rs:842-889 | a channel holds exactly the datagrams sent to it, in order, and an event sends to one channel at most |
| `Listener.NothingLost` | crates/zuicity-client/src/lib.rs:323-351 | while the loop goes on no task is lost, so accepted = completed + failed + running |
| `Listener.Settles` | crates/zuicity-client/src/lib.rs:305-379 | a run that goes on until shutdown accounts for everything once it is drained |
| `Listener.Listener.Accept` | crates/zuicity-client/src/lib.rs:361-376 | every accepted connection is counted and runs, is queued with a new channel at the end, or is a failure; nothing else changes |
| `Listener.Listener.Receive` | crates/zuicity-client/src/lib.rs:352-360 | the tables after routing, and at most one inbox grown by this datagram |
| `Listener.Listener.EndTcp` | crates/zuicity-client/src/lib.rs:323-335 | a TCP relay's end moves it from running to the report; nothing else changes |
| `Listener.Listener.EndUdp` | crates/zuicity-client/src/lib.rs:336-351 | an association's end moves it to the report; only a completed one forgets the peer it reports |
| `Listener.Listener.DrainTcp` | crates/zuicity-client/src/lib.rs:1803-1815 | which ends the grace loop collects, the report, the completed relays and the losses after them |
| `Listener.Listener.DrainUdp` | crates/zuicity-client/src/lib.rs:1817-1829 | the same for associations |
| `Listener.Listener.JoinTcp` | crates/zuicity-client/src/lib.rs:1787-1793 | every task left is collected after the abort, with its report, relays and losses |
| `Listener.Listener.JoinUdp` | crates/zuicity-client/src/lib.rs:1794-1800 | the same for associations |
| `Listener.Listener.Drain` | crates/zuicity-client/src/lib.rs:1778-1801 | afterwards nothing runs; report, completed relays and losses are those of the ends collected |
| `Listener.Listener.Turn` | crates/zuicity-client/src/lib.rs:316-378 | the next state and whether the loop gives up, exactly |
| `Listener.Listener.Run` | crates/zuicity-client/src/lib.rs:316-378 | the loop handles the events up to the first that stops it |
| `Listener.RunLoopUntil` | crates/zuicity-client/src/lib.rs:305-379 | over every event sequence and drain: which event stops it and with which error, each inbox exactly, no channel mixing peers or holding a datagram of a stranger, the report exactly and each counter by its kind, accepted = completed + failed + the drain's losses, byte totals the sums over the completed relays |
| `ReadAhead.RelayCopy` | crates/zuicity-client/src/lib.rs:1116-1134 | the plain loop computes the copy |
| `ReadAhead.Ahead.ReadInto` | crates/zuicity-client/src/lib.rs:1151-1159 | a read fills one buffer and leaves the other alone |
| `ReadAhead.Ahead.Overlap` | crates/zuicity-client/src/lib.rs:1150-1175 | in every order of completion the buffer written is unchanged and written as a sequential write would, and the next read is taken once |
| `ReadAhead.RelayCopyLocalToQuic` | crates/zuicity-client/src/lib.rs:1136-1183 | the two-buffer relay has the output and the result of the plain loop, for every interleaving and every failure |
| `ReadAhead.CopyOutcome` | crates/zuicity-client/src/lib.rs:1116-1183 | output is a prefix of the bytes read, all of them unless a write fails; the result exactly, write errors before read errors |
| `ReadAhead.FailedOutput` | crates/zuicity-client/src/lib.rs:1116-1183 | when a write fails, what was written: everything read before, and of its own buffer the bytes taken |
| `ReadAhead.InterleavingIrrelevant` | crates/zuicity-client/src/lib.rs:1163-1175 | schedules with the same writes have the same outcome |
| `Dialer.SharedDialer.GetConnection` | crates/zuicity-client/src/lib.rs:943-958 | the open cached connection, or a new one after discarding a closed one |
| `Dialer.SharedDialer.Invalidate` | crates/zuicity-client/src/lib.rs:960-964 | the cached connection is discarded |
| `Dialer.SharedDialer.OpenWithReconnect` | crates/zuicity-client/src/lib.rs:1082-1094 | the outcome exactly: which connection carries the stream, when a second one is dialled, when dialling fails and when two failures report the first; at most one redial |
| `Dialer.RunDialer` | crates/zuicity-client/src/lib.rs:943-964 | over every interleaving: who succeeds, every dialled connection returned by some call, which calls discard one, dials = discarded + cached, and two calls return the same connection if and only if nothing disturbed it |
| `UdpForward.StreamsDiffer` | crates/zuicity-client/src/lib.rs:1601-1641 | two peers never share a stream |
| `UdpForward.SweepLeaves` | crates/zuicity-client/src/lib.rs:1725-1745 | which associations a sweep leaves, by when they were last used, and whose streams it finishes |
| `UdpForward.RelayedEntry` | crates/zuicity-client/src/lib.rs:1618-1633 | a relayed datagram leaves its peer with the stream it had or a new one, last used at the answer |
| `UdpForward.GoesOnUnfailing` | crates/zuicity-client/src/lib.rs:1612-1640 | the loop goes on exactly while no receive fails and every datagram is relayed |
| `UdpForward.Forwarder.FinishIdle` | crates/zuicity-client/src/lib.rs:1725-1745 | exactly the associations of at least the timeout's age go and their streams are finished, if and only if all of these can be; a zero timeout does nothing |
| `UdpForward.Forwarder.FinishPeers` | crates/zuicity-client/src/lib.rs:1739-1754 | all streams are finished, or it stops at the first failure, which loses one; which of both exactly |
| `UdpForward.Forwarder.FinishAll` | crates/zuicity-client/src/lib.rs:1747-1754 | the shutdown leaves every stream opened finished once, or one that could not be |
| `UdpForward.Forwarder.Associate` | crates/zuicity-client/src/lib.rs:1625-1627 | a peer keeps its stream or gets a new one |
| `UdpForward.Forwarder.Forward` | crates/zuicity-client/src/lib.rs:1625-1633 | a datagram uses the stream its peer has or a new one, until it is answered; exactly when it succeeds |
| `UdpForward.Forwarder.Turn` | crates/zuicity-client/src/lib.rs:1613-1638 | the books after an event and whether the loop fails, exactly; it breaks exactly when the event's sweep has a stream that cannot be finished |
| `UdpForward.Forwarder.Run` | crates/zuicity-client/src/lib.rs:1612-1640 | the loop handles the events up to the first that fails, and counts them |
| `UdpForward.RunForwardLoop` | crates/zuicity-client/src/lib.rs:1601-1641 | over every run: it reports if and only if no event fails and every stream can be finished, and then each stream opened was finished once; else opened = finished + live, and one more if the next event or the shutdown is the first with a stream that cannot be finished |
| `Fwmark.StepFits` | crates/zuicity-config/src/lib.rs:709-716 | the 64-bit step cannot fail while the value fits 32 bits |
| `Fwmark.ParseDigits` | crates/zuicity-config/src/lib.rs:682-728 | Ok with the value, Range or Syntax, exactly by the grammar and the unbounded value |
| `Fwmark.NumeralMeans` | crates/zuicity-config/src/lib.rs:690-722 | what is accepted: digits of the base with single underscores between them, none in front, none behind |
| `Fwmark.UnderscoresIgnored` | crates/zuicity-config/src/lib.rs:690-716 | underscores make no difference to the value |
| `Fwmark.PrefixesSplit` | crates/zuicity-config/src/lib.rs:656-680 | each prefix, in either case, selects its base, and a plain zero before octal digits does too |
| `Fwmark.ParseU32Base0` | crates/zuicity-config/src/lib.rs:651-654 | the text's meaning by its prefix |
| `Fwmark.SpellingsRead` | crates/zuicity-config/src/lib.rs:651-728 | every value below 2^32 is read back from its decimal, hexadecimal, binary and both octal spellings, and every greater one is out of range in all of them |
| `Fwmark.ZeroLed` | crates/zuicity-config/src/lib.rs:656-680 | a leading zero before anything but a prefix letter or an octal digit is a syntax error, and so is no text |
| `Fwmark.CaseIrrelevant` | crates/zuicity-config/src/lib.rs:656-716 | capital letters mean what small ones do, in prefixes and digits |
| `Userinfo.PercentEncode` | crates/zuicity-config/src/lib.rs:505-516 | the loop's output is the encoding byte by byte |
| `Userinfo.EncodedDecodes` | crates/zuicity-config/src/lib.rs:505-516 | decoding gives back the bytes |
| `Userinfo.EncodedAlphabet` | crates/zuicity-config/src/lib.rs:505-516 | only unreserved characters and percent signs occur |
| `Userinfo.PieceMeans` | crates/zuicity-config/src/lib.rs:505-516 | which bytes stand for themselves; the others are escaped with capital hexadecimal digits |
| `Userinfo.CredentialsRead` | crates/zuicity-config/src/lib.rs:482-502 | splitting a link at the separators and decoding gives back both fields, whatever they hold |
| `Userinfo.CredentialsCarried` | crates/zuicity-config/src/lib.rs:482-502 | a link carries credentials exactly when both are set and at most 255 bytes, none when neither is set; each error exactly |
| `JsonLog.PushJsonString` | crates/zuicity-cli/src/lib.rs:279-299 | the loop appends the quoted string |
| `JsonLog.QuotedReads` | crates/zuicity-cli/src/lib.rs:279-299 | a reader by section 7 of RFC 8259 gives back the text and stops behind it |
| `JsonLog.EscapeMeans` | crates/zuicity-cli/src/lib.rs:279-299 | which characters are written as themselves, with a short escape, and by number |
| `JsonLog.RenderJson` | crates/zuicity-cli/src/lib.rs:252-276 | the line is the object of the event's members |
| `JsonLog.LineReads` | crates/zuicity-cli/src/lib.rs:252-276 | reading the line gives back all members in order |
| `JsonLog.EventReads` | crates/zuicity-cli/src/lib.rs:252-276 | reading an event's line gives its level, its caller and time if they are there, and its message, in that order |
| `JsonLog.OneLine` | crates/zuicity-cli/src/lib.rs:252-299 | a line holds exactly one line end, at its end |

## Left out

- QUIC, TLS, certificate checks and the kernel: they appear only as answers that may be anything.
- Adaptive per-destination GSO fallback, GRO receive and the server runtime.
- Dialer-link parsers, configuration files, command-line handling and log rotation.
- The SOCKS5 handshake and HTTP CONNECT: an accepted connection is already known to be a relay, an association or a failure.
- The one-shot variants of the relay, the listener and the forwarder, which repeat the loops modelled here for a single connection.
- Machine widths of counters and byte totals: they are unbounded, so wrap-around after 2^64 is not modelled.
- Bounded channels: a datagram sent to a live association is delivered at once, so waiting for room in its channel is not modelled.
- Medians of the ratios and the other descriptive statistics of the benchmark summary; values are exact reals, so rounding is not modelled.
- Schedule.ValidateCompleteSchedule: the replications are a set, where the report lists them in ascending order.
- PlainBatch.GroupsFit: the environment value is taken after trimming.
- PlainSend.Send: whether memory for the owned suffix can be had is a parameter; the clock does not go back and gets to every instant, without which spurious polls could go on for ever.
- Listener.RunLoopUntil: a channel that was seen closed also refuses a datagram, because receivers do not come back.
- UdpForward.RunForwardLoop: when the shutdown cannot finish a stream, the streams it did not reach count as live, where the program drops them.
- Userinfo.CredentialsRead: only the user information of the link is modelled, not the host and the port.
