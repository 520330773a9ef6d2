# Shawk in Dafny

Shawk watches the TCP connections of a host. It lists them, tells actively opened from passively
opened ones, counts them in groups called host flows, queues batches of host flows, and stores
them in a PostgreSQL database, the CMDB, as a graph of processes, active nodes, passive nodes and
flows. Queries read the graph back. This project models these stages and proves what they promise.

## How the model is laid out

| modules | part of Shawk |
|---|---|
| `Options`, `Arithmetic`, `Text`, `Inet`, `PrivateIP` | text of numbers and addresses, the private address blocks |
| `Probe` | host flows, their unique keys, `HostFlows.Insert`, and the specification of grouping |
| `Netlink`, `Listing`, `Entries` | the netlink and the procfs builder; the fallback and the filters; what each entry says, stated on the sockets |
| `Procfs` | the parser of `/proc/net/tcp`, and the kernel's printer |
| `Streaming`, `StreamingProtocol` | `aggregate` on the heap; the streaming agent as interleaved steps |
| `Polling`, `Flushing`, `Capacity`, `PollingAgent` | the polling agent as interleaved steps; which starts of a flush are safe; its channel's capacity; `scanFlows` and `flush` |
| `Tables`, `Store` | tables with sequences and upserts; the schema, the SQL statements, one flow, one transaction, runs |
| `Invariant`, `Reporting`, `Provenance`, `Attribution`, `Misattribution`, `Connectivity`, `Freshness`, `Saturation`, `Boundary`, `Idempotence` | what every run of the writer keeps |
| `Queries`, `Database` | the finds; the `DB` object, whose methods are proved against `Store` and `Queries` |
| `Pipeline` | results that cross the stages |

Objects that the source updates in place are classes (`HostFlow`, `HostFlows`, `DB`,
`FindFlowsCond`, the two channels), and loops are loops. The methods are proved against functions
on values (`Grouped`, `Step`, `Fold`, `Apply`, `ParseLines`), and the lemmas are about those.

Choices made in the model:

- A SELECT without ORDER BY may return any eligible row. Each flow of a batch carries its own
  `Pick`, a function that returns a member of any non-empty set; every theorem holds for all picks.
- `CURRENT_TIMESTAMP` is one value for a transaction. Sequences are never rolled back, and an
  upsert that finds a conflict draws a number too, so numbers may be skipped but not reused.
- `Inet` values are what the inet type stores. The parser from text to inet is a parameter of the
  model, so the results hold for any. `Pipeline` asks only that it accepts dotted quads.
- The two finds are one method with a `Side`, since the queries are the same with sides exchanged.
- `int64`, `uint32` and PostgreSQL's `integer` are written out where a statement or a conversion
  checks the range: `ParseInt32`, `LegalConnections`, the `% 0x1_0000_0000` of `DecodeAddress`.

## Where the code does less than one may expect

The results in parentheses prove these.

- The fallback to procfs ignores the options. Processes and looked-up names aside, it agrees with
  netlink exactly when the filter would have dropped no connection (`Listing.FallbackAgrees`).
- A flush counts the queue once and then insists on that many batches. If it starts only when the
  running flushes have taken all they counted, none ever waits on an empty channel
  (`Flushing.NeverBlocks`); from any state in which one of them has still to take a batch, such a
  start can lead to a flush that waits (`Flushing.StartCanBlock`) until another batch is sent
  (`Flushing.BlockedUntilSend`).
- Batches are stored in the order they were sent if a flush starts only when the others have
  nothing in hand or to take, or when the queue is empty (`Flushing.StoredInOrder`); any other
  start can lead to a batch that overtakes another (`Flushing.StartCanOvertake`).
- The streaming aggregator reads its own error channel. If a tick with events to store is served
  while an error is pending, one more failing transaction stops it for good
  (`StreamingProtocol.TickPastErrorCanStall`, `StreamingProtocol.StalledForEver`), and such a tick
  can come (`StreamingProtocol.StallReachable`); if no such tick is served, it never stops
  (`StreamingProtocol.ErrorsFirstNeverStalls`).
- One flow the schema refuses loses its whole batch (`Invariant.CommitsIffAllAccepted`).
- The writer looks for the source of a passive flow by the peer's address and the flow's port, not
  by the flow's host. A process that was never seen talking to that host can become the source
  (`Misattribution.RunMisattributes`); it cannot exactly when no process on the peer's address but
  the unknown one was seen on the same port of other hosts only (`Misattribution.SourceIsSureIff`).
- A find shows one flow for each address and process name, however many there are
  (`Queries.FindIsLatestPerGroup`).

Where the comments in db/db.go and its code differ, the model follows the code. The comment at
line 180 gives another query than findActiveNodesSQL, and those at lines 173 and 185 announce an
update of a found peer that the code does not make.

## Model

| member | source | states |
|---|---|---|
| Text.DecimalRoundTrip | probe/netlink/connections.go:94 | the value of the decimal text of a port is the port |
| Text.ParseInt32OfDecimal | db/db.go:198 | the text of a port, sent as a parameter, is accepted as an integer exactly when it fits 32 bits, and then it is the port |
| Text.ParseInt32OfSigned | db/db.go:198 | so is a signed text with white space around, with its sign |
| Text.JoinedInjective | probe/probe.go:104-106 | parts joined by a character none but the last may hold can be told apart again |
| Inet.DottedQuadInjective | probe/netlink/connections.go:102-103 | two IPv4 addresses with the same text are equal |
| PrivateIP.BlocksOfFour | probe/netlink/netutil/netutil.go:24-39 | masking byte by byte decides 10/8, 172.16/12 and 192.168/16 as prefixes, section 3 of RFC 1918 |
| PrivateIP.BlocksOfSixteen | probe/netlink/netutil/netutil.go:24-39 | masking byte by byte decides ::1/128, fe80::/10 and fc00::/7 as prefixes |
| PrivateIP.BlocksAreIntervals | probe/netlink/netutil/netutil.go:24-39 | loopback and the mask blocks together are exactly four intervals of IPv4 and three of IPv6 addresses |
| PrivateIP.IsPrivateIP | probe/netlink/netutil/netutil.go:106-116 | the search answers whether an address, in either length, IPv4-mapped or malformed, is in one of those intervals |
| Probe.UniqKeyInjective | probe/probe.go:104-106 | for plain endpoints, bracketed IPv6 hosts and hosts with a dash included, keys are equal if and only if direction, hosts and ports are |
| Probe.EndpointParts | probe/probe.go:57-62 | an endpoint is the looked-up name, or the address when there is none, in brackets when it has a colon or a zone, a colon, and the port |
| Probe.UniqKeyText | probe/probe.go:104-106 | the key is the word for the direction and both endpoints joined by dashes, each with its looked-up name, or its address when it has none |
| Probe.JoinHostPortInjective | probe/probe.go:57-62 | a printed endpoint followed by more text determines host, port and the rest |
| Probe.GroupedKeys | probe/probe.go:127-137 | a key is in the map if and only if a flow had it, if and only if it occurs, and the entry has that key |
| Probe.GroupedMeaning | probe/probe.go:127-137 | an entry is the first flow of its key, its count raised by the number of occurrences, with the first process that is not nil in order |
| Probe.FreshCount | probe/probe.go:127-137 | for flows that start at zero the count of a key is its number of occurrences |
| Probe.ChunksAddUp | agent/streaming/streaming.go:68-95 | counts of consecutive chunks add up to those of the concatenation |
| Probe.OrderIrrelevant | probe/probe.go:127-137 | permuting fresh flows changes neither the keys nor the counts |
| Probe.GroupedTotal | probe/probe.go:127-137 | the counts of all entries add up to the number of flows inserted |
| Probe.HostFlows.Insert | probe/probe.go:127-137 | in place on the heap: the map's view becomes the merge of the old view with the flow, also when the object is already stored |
| Probe.HostFlow.SetLookupedName | probe/probe.go:109-112 | names each end by the lookup of its own address and keeps every other field |
| Probe.ValuesOf | agent/polling/polling.go:71-74 | the slice has each object of the map once, whatever the iteration order |
| Netlink.FilterByLocalListeningPorts | probe/netlink/netutil/netutil_linux.go:166-177 | the ports are exactly those of listening sockets bound to a wildcard or loopback address |
| Netlink.NetlinkFilterByLocalListeningPorts | probe/netlink/netutil/netutil_linux.go:51-63 | the sockets kept are the listening ones on such an address, in order |
| Netlink.SameListeningPorts | probe/netlink/netutil/netutil_linux.go:166-177 | both filters find the same ports |
| Netlink.ListeningPorts | probe/netlink/connections.go:55-63 | ports in order, and the owner of the last socket listening on each |
| Netlink.Classify | probe/netlink/connections.go:88-127 | computes the flow of a connection, which `Entries.ConnFlowEnds` and `Entries.ConnFlowOwner` describe |
| Netlink.GetHostFlowsByNetlink | probe/netlink/connections.go:37-135 | the heap map built is the grouping of the flows of the connections that are listed and pass the filter, names looked up unless numeric |
| Netlink.GetHostFlowsByProcfs | probe/netlink/connections.go:138-175 | the heap map built is the grouping of the flows of all listed connections |
| Netlink.ResolveNames | probe/netlink/connections.go:129-133 | every entry's ends are named by their own addresses; its other fields and its key stay |
| Listing.KeyMeaning | probe/netlink/connections.go:94-127 | two connections fall into one group if and only if they have the same direction, addresses, and port on the side that listens |
| Listing.FallbackAgrees | probe/netlink/connections.go:23-34 | with or without name lookup, the fallback has the keys, directions, addresses, ports and counts of what netlink would have returned if and only if the filter drops no listed connection |
| Listing.BuildersSameFlows | probe/netlink/connections.go:138-175 | connection by connection both builders make the same flow, process aside |
| Listing.TotalIsSurviving | probe/netlink/connections.go:66-127 | the counts add up to the number of connections that are not skipped and pass the filter |
| Listing.FiltersPartition | probe/netlink/connections.go:76-86 | the full result is the disjoint union of the public and the private one, counts and processes included |
| Listing.FlowHasConn | probe/netlink/connections.go:66-127 | every flow listed comes from a connection that passes the filter |
| Entries.PortMeaning | probe/netlink/netutil/netutil_linux.go:51-63 | a port counts as listening if and only if a socket in state 10 is on it, on 0.0.0.0 or 127.0.0.1 |
| Entries.StatPortMeaning | probe/netlink/netutil/netutil_linux.go:166-177 | the same for the fallback, with :: |
| Entries.ListedMeaning | probe/netlink/connections.go:66-86 | a connection is listed if and only if its state is not 2, 3 or 10 and its peer is not private under "public" and private under "private" |
| Entries.ConnFlowEnds | probe/netlink/connections.go:94-118 | the local end has the source address and the peer the destination address; passive exactly when the source port listens; the listening side keeps its port and the other is "many" |
| Entries.StatFlowEnds | probe/netlink/connections.go:158-171 | the same for the fallback, without a process |
| Entries.ConnFlowOwner | probe/netlink/connections.go:88-126 | the process is the owner of the connection's own inode, if known; else, on a listening port, that of the last socket listening on it; else none |
| Entries.OwnedOnce | probe/netlink/connections.go:88-126 | and that description leaves one process only |
| Entries.ConnFlowKey | probe/netlink/connections.go:94-127 | the key of a connection's entry, as text |
| Entries.GroupsUpTo | probe/netlink/connections.go:65-127 | after any part of the loop an entry's count is the number of listed connections of its group and its process the first known owner among them |
| Entries.NetlinkEntries | probe/netlink/connections.go:37-135 | the result has an entry for each listed connection and no other, with that connection's ends, names if asked for, count and process |
| Entries.ProcfsEntries | probe/netlink/connections.go:138-175 | likewise for the fallback, without names and processes |
| Procfs.SplitJoined | probe/netlink/netutil/netutil_linux.go:106 | splitting undoes joining |
| Procfs.FieldsSpaced | probe/netlink/netutil/netutil_linux.go:109 | splitting at white space gives the words back, however far apart they stand |
| Procfs.WhiteSpace | probe/netlink/netutil/netutil_linux.go:109 | what separates words is the white space of Unicode |
| Procfs.HexValueOfDigit | probe/netlink/netutil/netutil_linux.go:149-156 | hexadecimal digits are read in either case |
| Procfs.UnderscoreSkipped | probe/netlink/netutil/netutil_linux.go:149 | a port may have an underscore before a digit but not at its end |
| Procfs.AddressDecodes | probe/netlink/netutil/netutil_linux.go:143-163 | decoding undoes the little-endian printer, for every IPv4 address and 16-bit port |
| Procfs.LongPortDecodes | probe/netlink/netutil/netutil_linux.go:149-162 | a port of any length is read as a 64-bit number and cut to 32 bits; a larger one is refused |
| Procfs.OneColon | probe/netlink/netutil/netutil_linux.go:144-147 | an address without exactly one colon is refused |
| Procfs.HexDigitsOnly | probe/netlink/netutil/netutil_linux.go:153-156 | an address decodes exactly when it has an even number of digits and nothing else |
| Procfs.LineDecodes | probe/netlink/netutil/netutil_linux.go:108-133 | a kernel line gives its connection back, whatever its other columns |
| Procfs.WordsDecide | probe/netlink/netutil/netutil_linux.go:108-133 | a line counts if and only if it has ten words and the second and third are addresses, and then says what they and the fourth say |
| Procfs.StateScans | probe/netlink/netutil/netutil_linux.go:115-118 | a state is its value, or 255 when larger |
| Procfs.MalformedState | probe/netlink/netutil/netutil_linux.go:115-118 | a state with another character is kept as 0, or as 255 when it was too large before |
| Procfs.ProcfsConnections | probe/netlink/netutil/netutil_linux.go:100-136 | the loop returns the lines that parse, in order, skipping the others |
| Procfs.FileRoundTrip | probe/netlink/netutil/netutil_linux.go:100-136 | reading what the kernel prints for any list of connections returns that list in order |
| Streaming.Absorb | agent/streaming/streaming.go:75-87 | one turn merges the flow in place and changes one object only |
| Streaming.MergeAgain | agent/streaming/streaming.go:75-87 | an object that is already in the map counts again like the record it once held |
| Streaming.Drain | agent/streaming/streaming.go:68-87 | as many receives as the channel held, grouped |
| Streaming.Aggregate | agent/streaming/streaming.go:68-95 | empties the channel and lists each group once, also when one object was sent more than once |
| StreamingProtocol.RunKeepsInvariant | agent/streaming/streaming.go:36-66 | every step keeps: events sent are those drained, those in hand and those queued, in order, and the lists are the groups of the chunks |
| StreamingProtocol.ReachableInvariant | agent/streaming/streaming.go:36-66 | so it holds in every reachable state |
| StreamingProtocol.Conservation | agent/streaming/streaming.go:68-95 | per key and in all: events sent = counted by the lists + received by the running drain + still queued |
| StreamingProtocol.DrainTakesSnapshot | agent/streaming/streaming.go:69-76 | a drain never blocks, and returns the groups of exactly its snapshot |
| StreamingProtocol.StalledForEver | agent/streaming/streaming.go:52-64 | once the aggregator waits to send on the full channel it reads itself, no further list is made |
| StreamingProtocol.ErrorsFirstNeverStalls | agent/streaming/streaming.go:52-64 | that state is not reached if no tick is served on a channel with events while an error is pending |
| StreamingProtocol.TickPastErrorCanStall | agent/streaming/streaming.go:52-64 | from every reachable state with a pending error and an event, serving a tick can lead there |
| StreamingProtocol.TickPastErrorReachable | agent/streaming/streaming.go:52-64 | a reachable state has a pending error and an event, for every event |
| StreamingProtocol.StallReachable | agent/streaming/streaming.go:52-64 | so the agent can stall |
| Polling.BatchConservation | agent/polling/polling.go:61-113 | with overlapping flushes and any failures, every scanned batch is in exactly one of five places, and each failed flush dropped exactly one |
| Flushing.NeverBlocks | agent/polling/polling.go:102-113 | in a run where a flush starts only when the running ones have taken all they counted, no flush ever waits on an empty channel |
| Flushing.StartCanBlock | agent/polling/polling.go:86-113 | from every reachable state where one has still to take a batch, a start can lead to a flush that waits, by taking and storing alone |
| Flushing.OverlapCanBlock | agent/polling/polling.go:86-113 | so two starts in a row on any reachable queue with batches can |
| Flushing.QueueReachable | agent/polling/polling.go:82 | and such a queue is reachable, for any capacity |
| Flushing.BlockedUntilSend | agent/polling/polling.go:104-105 | a waiting flush goes on waiting through every step but a send, and any send lets it go on |
| Flushing.StoredInOrder | agent/polling/polling.go:102-113 | in a run where a flush starts only when the others have nothing in hand or to take, or on an empty queue, batches are stored in the order sent |
| Flushing.StartCanOvertake | agent/polling/polling.go:86-113 | from every other reachable state a start can lead to batches stored out of order |
| Flushing.FailedFlushLeavesSuffix | agent/polling/polling.go:102-113 | in such a run, when a flush fails exactly the batches behind the dropped one stay queued, and no flush has anything left to take |
| Capacity.NeverFull | agent/polling/polling.go:19-30 | with capacity flushInterval/interval+1 and timely ticks in any phase, no scan finds the channel full |
| Capacity.CapacityIsTight | agent/polling/polling.go:26 | that many batches are attained, for all intervals |
| PollingAgent.ScanFlows | agent/polling/polling.go:61-83 | sends the error of a failed scan, and in any case one batch, each flow of the map once |
| PollingAgent.FlushNext | agent/polling/polling.go:104-110 | one turn stores the front batch as one transaction |
| PollingAgent.Flush | agent/polling/polling.go:102-113 | stores batches in order as one transaction each, stops behind the first that fails, and leaves the rest queued |
| Tables.UpsertKeepsValid | db/db.go:92-114 | an upsert keeps keys unique and ids below the sequence, leaves exactly one row for its key, and touches no other row |
| Tables.UpsertSize | db/db.go:92-114 | it adds a row exactly when the key was absent |
| Invariant.InsertProcessKeeps | db/db.go:92-98 | succeeds exactly on legal values, keeps `created`, stamps `updated`, leaves other rows alone |
| Invariant.InsertPassiveNodeKeeps | db/db.go:109-114 | succeeds exactly on a positive port, and returns the row of the process and port |
| Invariant.WriteFlowKeeps | db/db.go:124-130 | stores the count, keeps `created` of an old row, stamps `updated`, leaves other rows alone |
| Invariant.StepKeeps | db/db.go:148-274 | one flow, in every branch, keeps the whole schema, every row, id and key; it fails exactly when it is not legal; otherwise it leaves a row that joins its local process, which `Reporting.StepReports` spells out, to a node on its peer |
| Invariant.FoldKeeps | db/db.go:148-274 | so does a whole batch, which succeeds exactly when each flow is accepted |
| Invariant.CommitsIffAllAccepted | db/db.go:134-279 | a batch commits if and only if the schema accepts each flow, whatever the tables hold; else no row changes |
| Invariant.RunValid | assets/schema/flows.sql:1-39 | every state of every run satisfies all UNIQUE, CHECK and FOREIGN KEY constraints, with ids below their sequences |
| Invariant.RunExtends | db/db.go:134-279 | rows are never deleted, re-keyed or renumbered; ids are never reused, not even after a rollback |
| Invariant.FoldSkipsLoopback | db/db.go:149-154 | a batch does what it does without its loopback flows |
| Reporting.LoopbackSkipped | db/db.go:149-154 | a flow with 127.0.0.1 or ::1 at either end changes nothing |
| Reporting.StepReports | db/db.go:162-273 | any other flow that succeeds stamps the process of its own address, group and name (0 and none without a process), and its row joins that process, on the side of its direction, to its peer |
| Reporting.CommitReports | db/db.go:134-279 | so does a committed batch for each of its flows, in the state it leaves |
| Reporting.CommitsIffAllAcceptable | db/db.go:134-279 | a batch commits if and only if each flow has a loopback address or an address, group, name, peer, port and count within the bounds of the columns |
| Reporting.RunChecks | assets/schema/flows.sql:1-39 | the CHECK constraints and column sizes of every state of every run, in numbers |
| Provenance.StepWritesOneRow | db/db.go:148-274 | a flow writes at most one flows row, with its own count and time |
| Provenance.RunExplained | db/db.go:134-279 | in every state of every run the flows table is what the committed flows leave when the last writer wins: rows, counts, `created`, `updated`; and each was about its row |
| Provenance.WitnessedLater | db/db.go:134-279 | a row stays about its reporter for ever |
| Attribution.PeerOfWrite | db/db.go:214-230 | the peer end of the row is the eligible row that was picked, or the unknown process of the peer's address |
| Attribution.SourceWasSeen | db/db.go:76-83 | a passive flow's source is a node on the peer's address seen talking to the port, if there is one, else the unknown process |
| Attribution.DestinationWasListening | db/db.go:85-90 | an active flow's destination is a node listening on the peer's address and port, if there is one, else the unknown process |
| Misattribution.SourceIsSureIff | db/db.go:76-83 | for every pick a passive flow's source was seen talking to its host and port or is unknown, if and only if no known process on the peer's address was seen on that port of other hosts only |
| Misattribution.RunMisattributes | db/db.go:214-235 | from the empty tables: after the peer reports a flow to the same port of another host, the flow is drawn from that process, which was never seen talking to this host, for every pick |
| Misattribution.SuchReports | db/db.go:214-235 | two concrete reports of that kind |
| Connectivity.StepCreates | db/db.go:188-273 | a flow creates nothing but the two ends of the row it writes and their processes |
| Connectivity.RunLinked | db/db.go:134-279 | in every state of every run no node is without a flow and no process without a node, but those of flows without a direction |
| Connectivity.GraphReported | db/db.go:134-279 | every node of every state is an end of a row that a committed flow wrote and is about |
| Freshness.StepTouched | db/db.go:92-98 | each process row is new, refreshed or unchanged, and the reporter's is fresh |
| Freshness.CommitRefreshes | db/db.go:134-279 | a commit stamps the process of every flow that is not loopback, and changes no `created` |
| Saturation.CoveredAddsNothing | db/db.go:189-267 | a known flow, whatever its count and whichever rows the finds return, adds no process and no node |
| Saturation.FoldCovers | db/db.go:189-267 | after a commit each of its flows is known |
| Saturation.ReportedAgainAddsNothing | db/db.go:134-279 | a batch of flows committed anywhere earlier in the run adds no process and no node |
| Saturation.RunBounded | db/db.go:134-279 | runs over a finite set of n flows leave at most 2n processes, n active nodes, n passive nodes and n squared flows |
| Saturation.FlowsAreNodePairs | assets/schema/flows.sql:30-39 | there are at most as many flows as pairs of an active and a passive node |
| Boundary.StepInStep | db/db.go:148-274 | the same flow does the same to two states that differ in time stamps only, and fails with the same error |
| Boundary.TwoBatchesAsOne | db/db.go:134-279 | committing one batch and then another equals committing both as one, up to time stamps, and one succeeds if and only if the other does |
| Boundary.RunAsOneBatch | db/db.go:134-279 | any run of successful batches equals one batch of all their flows, up to time stamps |
| Idempotence.EligibleAfterFlow | db/db.go:76-83 | writing a flow makes its source eligible for its port and no other node |
| Idempotence.StepSettles | db/db.go:194-273 | after a flow its find returns the peer it used, since the eligible set is unchanged or has become that row |
| Idempotence.StepTwice | db/db.go:194-273 | applying a flow twice in a row leaves the same rows, counts and creation times as once |
| Queries.GroupKeyInjective | db/db.go:381 | the group key of address and process name is injective, also for names with dashes |
| Queries.FlowOfWitnessed | db/db.go:382-396 | the flow shown for a row is the one its reporter described, nodes, ports and process |
| Queries.FindIsLatestPerGroup | db/db.go:332-396 | whatever order and tie-breaks the server uses, the result has one entry for each group of qualifying rows, a list of exactly one flow, of a latest row |
| Queries.AnsweredByLatest | db/db.go:324-396 | latest-per-group of the qualifying rows is what the arguments ask for |
| Queries.FoldStamps | db/db.go:134-279 | after a commit each directed flow has a row with the commit's time |
| Queries.ReadYourWrites | db/db.go:316-491 | after a commit a find over its time for a flow's local address shows the flow's address and process name, at least as recent |
| Queries.EntryOf | command/look.go:75-98 | the entry of a qualifying row's group exists and its first flow is no older than the row |
| Database.DB.InsertProcess | db/db.go:92-98 | the new state and result of the statement, errors included |
| Database.DB.InsertActiveNode | db/db.go:101-106 | the new state and result of the statement, errors included |
| Database.DB.InsertPassiveNode | db/db.go:109-114 | the new state and result of the statement, errors included |
| Database.DB.InsertFlow | db/db.go:124-130 | the new state and result of the statement, errors included |
| Database.DB.PeerActive | db/db.go:214-230 | finds any eligible active node or creates one, as the specification does for the pick made |
| Database.DB.PeerPassive | db/db.go:251-267 | finds any eligible passive node or creates one, as the specification does for the pick made |
| Database.DB.WriteOne | db/db.go:149-273 | one turn of the loop does one step |
| Database.DB.InsertOrUpdateHostFlows | db/db.go:134-279 | the tables become those of one transaction of the flows; an error is returned exactly when it did not commit |
| Database.DB.FindFlows | db/db.go:316-491 | every entry shows one row, updated in the asked time, whose process on the asked side has an asked address, given as four bytes or mapped into sixteen, and no such row of that address and name is newer; each such row has an entry; the condition is normalised in place |
| Database.DistinctOn | db/db.go:332-354 | one row of each group, with a largest stamp |
| Pipeline.GroupLegal | agent/streaming/streaming.go:86 | the group of legal fresh events passes every CHECK |
| Pipeline.GroupsCommit | agent/streaming/streaming.go:54-63 | a batch of such groups commits in every state of the tables |
| Pipeline.ScanCommits | agent/polling/polling.go:61-83 | a batch scanned from legal sockets commits in every state of the tables, names looked up or not |
| Pipeline.AggregatorTick | agent/streaming/streaming.go:57-63 | a tick drains the channel, commits, and leaves no error |
| Pipeline.FallbackFromText | probe/netlink/connections.go:138-175 | from the kernel's own text the fallback lists what netlink returns without a filter, processes and looked-up names aside |

## Left out

- Connecting to PostgreSQL, timeouts, cancelled contexts, loading the schema through statik, logging and the command line: a statement here fails only for its values.
- Two transactions at once on the one connection: transactions are serial, and overlapping flushes are modelled on the channel only.
- `RunOnce` of the polling agent: it waits on an error channel that the success path never writes.
- The branches for `pgx.ErrNoRows` after the upserts of local nodes (db/db.go:200-209 and db/db.go:242-246): DO UPDATE always returns a row.
- The text forms that the inet type accepts, masks included: the parser is a parameter.
- Integer texts that newer PostgreSQL versions accept besides signed decimal digits with white space around: other bases and `_` between digits.
- The text of addresses that are not four bytes long: a parameter of `DecodeAddress`. IPv6 connections are not modelled; the parser reads `/proc/net/tcp` only.
- `GetHostFlows` itself, and errors of `BuildUserEntries`: what the two builders it chooses between promise together is in `Listing`.
- `parseSocketInode`, the walk over `/proc`, netlink and eBPF calls, reverse DNS: their results are arguments.
- Local and Peer of a host flow are values in the object, so two flows that share one `AddrPort` are not modelled; the builders never make such flows.
- Connections is an unbounded integer in memory; its 64-bit wrap-around is not modelled. Storing it checks the 32-bit range of the column.
- Columns `created` and `updated` of a batch take the time the caller passes; that clocks advance is not assumed anywhere.
- The order in which DISTINCT ON lists the groups is the server's, and nothing depends on it.
- Printing of host flows and nodes (`String`, `MarshalJSON`) and `PortInt`.
- Waiting to send on the polling agent's error channels: `PollingAgent` records what is sent, and `Polling` has no error channel.
- Ticks that a ticker drops for a slow receiver, and the time a scan or flush takes: `Capacity` lets each take effect at its tick.
- FlowDirection values besides the three constants.
