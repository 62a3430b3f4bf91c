# Peeroxide DHT: a verified model

Peeroxide is a Rust implementation of the HyperDHT peer-to-peer stack. This project models the
state machines of its `peeroxide-dht` crate in Dafny and proves what they keep over whole runs.

Most components come in three modules. A specification module (`QuerySpec`, `RelaySpec`, ...)
gives the state as a value and each step as a function. A runs module (`QueryRuns`, `RelayRuns`,
...) states the invariant and the theorems about every run. A class module (`Query`, `Relay`, ...)
has the program's own form, fields changed in place by methods and loops; each method is proved to
make exactly the specified step. Time, message arrival, thread interleaving and random choices are
inputs of the steps, so a theorem about all runs is about all of them. History that the program
does not keep (replies heard, requests sent, addresses observed) is part of the specified state
where a theorem speaks about it. The modules `...Origins`, `EvictionLaws`, `RouterTable` and
`NoiseKeys` tie that state to the events of the run alone.

- `XorMetric`, `RoutingTable`: XOR distance over 256-bit ids, and the k-bucket table.
- `QuerySpec`, `QueryClosest`, `QueryRuns`, `QueryOffers`, `QueryOrigins`, `QueryPace`, `Query`,
  `QueryDispatch`: the iterative Kademlia query, and its requests at the I/O layer.
- `RelaySpec`, `RelayRuns`, `RelayTeardown`, `RelayOrigins`, `Relay`: the blind-relay pairing
  engine; each step is one critical section or atomic operation, so runs are interleavings.
- `MuxFrames`, `MuxSpec`, `MuxRuns`, `Mux`: Protomux frames, and two muxes with the frames between
  them.
- `NoiseSpec`, `NoiseRuns`, `NoiseKeys`, `Noise`: the Noise XX and IK handshakes, following
  sections 5.1 to 5.3 and 7.5 of the Noise Protocol Framework, revision 34. Cryptography is
  symbolic: a string is a sequence of literal bytes and positions of terms, and a Diffie-Hellman
  point is the multiset of its two secrets, so that commutativity is proved.
- `IoSpec`, `IoRuns`, `IoSends`, `IoOrigins`, `Io`: the in-flight table, congestion window,
  retries and timeouts.
- `RouterSpec`, `RouterRuns`, `RouterTable`, `Router`: handshake and holepunch routing between
  nodes with arbitrary forward tables, and the life of such a table.
- `Codec`, `Messages`, `HyperMessages`, `Cursor`: the compact encoding and the messages in it.
- `NatSpec`, `NatRuns`, `NatOrigins`, `Nat`: NAT classification.
- `StoreSpec`, `StoreRuns`, `StoreOrigins`, `Store`, `RecordSpec`, `RecordRuns`, `RecordOrigins`,
  `Records`: the record stores.
- `EvictionSpec`, `EvictionRuns`, `EvictionLaws`, `Eviction`: ticks, checks and repings of
  routing-table nodes.
- `Options`: optional values.

Some expected properties fail for the code as it is. Each is kept with its exact condition:

- A Protomux batch that is empty or has an empty item, and a message on channel 0, do not decode
  to themselves (`MuxFrames.BatchRoundTrip`, `MuxFrames.MessageRoundTrip`).
- Decoders refuse lists of more than 1048576 addresses that encoders write
  (`Messages.PeersRoundTrip`, `Messages.ResponseRoundTrip`).
- The size passes of the noise and holepunch payloads count some fields as one byte, which is
  right exactly up to 0xfc (`HyperMessages.NoisePayloadSizeExact`,
  `HyperMessages.HolepunchPayloadSizeExact`).
- `closest` scans downward before upward, so it is bucket-wise nearest only under the condition of
  `RoutingTable.NearestBucketsIff`; `RoutingTable.ClosestMissesNearer` is a table where it is not.
- The NAT verdict can depend on the order of observations, exactly for some multisets of four
  (`NatRuns.OrderMattersIff`, `NatRuns.BothOrders`).
- Caches keep to their limits exactly when these are not zero (`RecordRuns.LimitsKeptIff`,
  `StoreRuns.SizesKeptIff`).
- A query stalls exactly when a request that it handed out could not be created
  (`QueryDispatch.QueryFinishesIff`, `QueryDispatch.StallsAtOnce`).
- The active table of the relay names a released session again exactly when one of its matches is
  registered after the release (`RelayTeardown.ReleasedNamedIff`,
  `RelayTeardown.ReleasedNamedAgain`).
- A request can be sent once more than its retries allow, exactly when its place in the queue
  comes up after its last retry (`IoSends.AtMostOneLate`, `IoSends.SentTwice`).
- A query settles every suggestion only up to the first in its reply that is not nearer than the
  k-th kept reply, and an address queued under a wrong id is judged by that id
  (`QueryOrigins.QueryExhausts`, `QueryOrigins.QueryExhaustsAll`).
- A handshake through two relays is answered, and accepted only if the two are one
  (`RouterTable.TwoRelays`).

`dafny verify dfyconfig.toml` checks the project.

## Model

| member | source | states |
|---|---|---|
| `QueryRuns.QueryCompleteness` | peeroxide-dht/src/query.rs:366-430 | In every run, begun from the routing table or from given nodes alone, under any order of responses and timeouts, no address is queried twice, and once the first phase is over every node ever put on the pending stack was either asked and resolved or is no nearer to the target than the k-th kept reply. |
| `QueryOrigins.QueryExhausts` | peeroxide-dht/src/query.rs:202-303 | Completeness from the inputs of the run: once phase 1 is over, the first k nodes of the table, all explicit nodes and every suggestion of every reply were resolved, answered unasked, or queued under an id not nearer than the k-th kept reply; except a suggestion of this node itself, and those at or behind one in the same reply that is not nearer than the k-th kept reply. |
| `QueryOrigins.QueryExhaustsAll` | peeroxide-dht/src/query.rs:202-303 | If ids are the hashes of their addresses and replies come from the addresses asked: once phase 1 is over each of those nodes was asked and resolved or is not nearer than the k-th kept reply. |
| `QueryOrigins.SuggestionsFollowed` | peeroxide-dht/src/query.rs:285-303 | At any point of any run each suggestion of each reply so far is this node itself, is known, or is at or behind one of the same reply that is not nearer than the k-th kept reply. |
| `QueryOrigins.QueryTracked` | peeroxide-dht/src/query.rs:202-430 | Every run read from its events: which prefix of each reply was taken and recorded, in order; that the seeds are known; that every queued node is a seed, a suggestion that is not this node, or a node of a table view, and every known address was queued or answered; that successes and errors count the replies and timeouts; and that phase 1 ends only with a table's first k nodes offered or a quarter of k answers in. |
| `QueryOrigins.CommitsExact` | peeroxide-dht/src/query.rs:433-475 | In every run the commits sent are, once phase 1 of a committing query is over, one to each kept reply that holds a token, with its token, nearest first; and otherwise none. |
| `QueryOrigins.DownHintsFromReplies` | peeroxide-dht/src/query.rs:285-343 | If replies come from the addresses asked, those told that a node is down are exactly the senders of the suggestions of it that were taken, in order, if its request timed out, and nobody if not. |
| `QueryOffers.AddCloserTakes` | peeroxide-dht/src/query.rs:285-303 | A reply's suggestions are taken in order and known afterwards, up to the first not nearer than the k-th kept reply; what is queued is a suggestion other than this node. |
| `QueryOffers.ReadMoreGrows` | peeroxide-dht/src/query.rs:366-430 | Sending more queues nothing but nodes of the table; turning to the table offers its first k nodes; and phase 1 ends only with the table used or a quarter of k answers in. |
| `QueryPace.PaceExact` | peeroxide-dht/src/query.rs:304-430 | In every run the query is in slow mode exactly if it began without the table and no reply since brought answers and failures to the concurrency before it turned to the table; and while nodes are pending at least three requests, or its concurrency, are in flight. |
| `QueryPace.PaceKept` | peeroxide-dht/src/query.rs:304-430 | An event of phase 1 brings the requests in flight at most up to three in slow mode, or to the concurrency. |
| `QueryPace.PumpOrder` | peeroxide-dht/src/query.rs:373-402 | Pending nodes are taken from the newest on, exactly those nearer than the k-th kept reply are asked, in that order, and taking stops exactly at the limit or when none is left. |
| `QueryRuns.QueryTopK` | peeroxide-dht/src/query.rs:247-282 | After every run the kept replies are, nearest first, exactly the k nearest distinct ids among all error-free validated replies heard so far, each with its first reply. |
| `QueryRuns.QueryEnds` | peeroxide-dht/src/query.rs:241-489 | Every run is no longer than a measure of its start; as long as its requests are created, an unfinished query always has a response, timeout or commit answer still to come and, before the commits, between one and `concurrency` requests in flight; exactly one result is delivered, at the end; and commits go to exactly the kept replies that hold tokens, in order. |
| `QueryDispatch.QueryFinishesIff` | peeroxide-dht/src/rpc.rs:1545-1566 | With any set of requests that the I/O layer cannot create: a finished query had all its requests created; an unfinished one whose requests were all created can go on; so a run that cannot go on has finished if and only if every request handed out was created, and has stalled otherwise. |
| `QueryDispatch.StallsAtOnce` | peeroxide-dht/src/rpc.rs:1545-1566 | It happens: a query whose only node has an address for which no request can be created, such as an IPv6 bootstrap host, hands out one request, is not finished, and nothing can happen any more. |
| `QueryDispatch.DispatchRunInv` | peeroxide-dht/src/rpc.rs:1545-1566 | Such a run is a run of the query, only created requests are resolved, and outstanding and completed commits add up to the commits sent. |
| `QueryRuns.DownHintsExact` | peeroxide-dht/src/query.rs:285-343 | If replies come from the address asked, the down hints about a node that the query hands out are exactly one to each recorded suggester of it if it ended up down, whether suggested before or after its timeout, and none otherwise. |
| `QueryRuns.RunInv` | peeroxide-dht/src/query.rs:241-489 | The invariant behind the four results above is kept by every step, the seen map only grows, the replies heard are those of the run, and each event lowers the measure by at least one. |
| `QueryClosest.HearTopK` | peeroxide-dht/src/query.rs:247-282 | One more reply, pushed only if it is closer, turns the k nearest of what was heard into the k nearest of what was heard with it. |
| `QueryClosest.TopKUnique` | peeroxide-dht/src/query.rs:521-551 | The k nearest replies heard are unique as a sequence, so the top-k statement determines the kept list completely. |
| `QueryClosest.InsertReplyProperties` | peeroxide-dht/src/query.rs:521-551 | Bubbling a reply in keeps strictly increasing distance, adds exactly that reply, changes nothing for an id already there, and keeps the farthest entry last when the new one is nearer. |
| `QueryClosest.NotCloserStays` | peeroxide-dht/src/query.rs:493-502 | A node that is not closer than the k-th kept reply never becomes closer when further replies are pushed. |
| `XorMetric.Compare` | peeroxide-dht/src/query.rs:508-519 | The sign of the byte-wise comparison is the order of the 256-bit XOR distances to the target, and it is zero exactly for equal ids. |
| `XorMetric.DistanceInjective` | peeroxide-dht/src/query.rs:508-519 | Ids at the same XOR distance from a target are equal, so ties are duplicates. |
| `Query.Query.constructor` | peeroxide-dht/src/query.rs:163-200 | A new query has nothing pending, seen, kept, sent or delivered. |
| `Query.Query.AddTableNodes` | peeroxide-dht/src/query.rs:202-227 | Takes the first k nodes of the routing table scan into pending, in place, as the specified step does; sends nothing. |
| `Query.Query.AddNodes` | peeroxide-dht/src/query.rs:229-239 | Explicit start nodes become pending with the id of their address; sends nothing. |
| `Query.Query.PollRequests` | peeroxide-dht/src/query.rs:241-245 | Returns exactly the requests by which the specified step extends the log of sent requests. |
| `Query.Query.OnResponse` | peeroxide-dht/src/query.rs:247-313 | The whole in-place update for a response (resolve, count, learn, add closer nodes, leave slow mode, pump) equals the specified step, and the returned requests are exactly those the step sends. |
| `Query.Query.ResolveInflight` | peeroxide-dht/src/query.rs:247-313 | One request fewer is in flight and the peer is recorded as answered or down. |
| `Query.Query.CountReply` | peeroxide-dht/src/query.rs:247-313 | Counts a success or an error, by the error code. |
| `Query.Query.LearnReply` | peeroxide-dht/src/query.rs:247-282 | An error-free validated reply that is closer is pushed, and it is recorded as heard. |
| `Query.Query.AddSuggested` | peeroxide-dht/src/query.rs:285-303 | Adds the suggested nodes up to the first that is not closer, and returns the down hints for those already known to be down. |
| `Query.Query.LeaveSlowdown` | peeroxide-dht/src/query.rs:247-313 | Slow mode ends when enough replies have come in. |
| `Query.Query.TakeIn` | peeroxide-dht/src/query.rs:247-313 | Counting, learning, adding and leaving slow mode happen in this order. |
| `Query.Query.OnTimeout` | peeroxide-dht/src/query.rs:316-343 | The in-place update for a timeout equals the specified step, including the down hints to every suggester of the node. |
| `Query.Query.OnCommitDone` | peeroxide-dht/src/query.rs:347-357 | One commit fewer is outstanding; the last one finishes the query, which the result says. |
| `Query.Query.ReadMoreRequests` | peeroxide-dht/src/query.rs:366-430 | Pumps, falls back to the routing table at most once, and otherwise flushes when nothing is pending or in flight; the recursion ends. |
| `Query.Query.PumpPending` | peeroxide-dht/src/query.rs:366-430 | Pops the stack, skips nodes that are not closer, and sends until the limit of requests in flight is reached. |
| `Query.Query.PumpThenSlow` | peeroxide-dht/src/query.rs:366-430 | Enters slow mode as the specified step does, after the pump. |
| `Query.Query.FlushReplies` | peeroxide-dht/src/query.rs:433-475 | Without commits the query finishes; otherwise it sends exactly the specified commits, once. |
| `Query.Query.CollectCommits` | peeroxide-dht/src/query.rs:433-475 | The commits are one for each kept reply that holds a token, nearest first. |
| `Query.Query.FinishInternal` | peeroxide-dht/src/query.rs:477-489 | Delivers the result at most once. |
| `Query.Query.CheckCloser` | peeroxide-dht/src/query.rs:493-502 | Decides by the byte-wise comparison whether an id is nearer than the k-th kept reply, or the list is not full. |
| `Query.Query.PushReply` | peeroxide-dht/src/query.rs:521-551 | The swap loop on the list computes the specified insertion and keeps at most k replies. |
| `Query.Query.AddPendingReturning` | peeroxide-dht/src/query.rs:558-606 | A new closer node is pushed and marked seen; a known one only adds its suggester or gives a down hint; the flag says whether to stop. |
| `Query.Query.NoteAgain` | peeroxide-dht/src/query.rs:563-605 | A node suggested again gets the suggester recorded, or a hint if it is down. |
| `RoutingTable.RoutingTable.constructor` | peeroxide-dht/src/routing_table.rs:61-71 | The empty table: 256 empty buckets that represent the empty map. |
| `RoutingTable.RoutingTable.Add` | peeroxide-dht/src/routing_table.rs:89-131 | The table is a map by id: the node is stored exactly if its id was there or its bucket of common-prefix length held fewer than k nodes, and otherwise nothing changes but a BucketFull event; buckets stay sorted and bounded and the size exact. |
| `RoutingTable.RoutingTable.Locate` | peeroxide-dht/src/routing_table.rs:89-131 | Binary search in the bucket of an id: found exactly if the map holds the id, else the position that keeps the bucket sorted. |
| `RoutingTable.RoutingTable.Remove` | peeroxide-dht/src/routing_table.rs:134-150 | Removes exactly that id from the map and returns what it was mapped to. |
| `RoutingTable.RoutingTable.Get` | peeroxide-dht/src/routing_table.rs:157-163 | Looks the id up in the map. |
| `RoutingTable.RoutingTable.Closest` | peeroxide-dht/src/routing_table.rs:183-220 | Returns exactly min(n, size) distinct stored nodes: the first n of the scan order. |
| `RoutingTable.RoutingTable.ScanDown` | peeroxide-dht/src/routing_table.rs:183-220 | The downward loop collects the first n nodes of the buckets from the target bucket down to zero. |
| `RoutingTable.RoutingTable.ScanUp` | peeroxide-dht/src/routing_table.rs:183-220 | The upward loop goes on with the buckets above until n nodes are collected. |
| `RoutingTable.RoutingTable.BucketIndex` | peeroxide-dht/src/routing_table.rs:321-328 | The bucket is the common-prefix length with the local id, at most 255. |
| `RoutingTable.RoutingTable.RebuildWithId` | peeroxide-dht/src/routing_table.rs:228-252 | With a new id, the old nodes other than the new id are split exactly, without overlap, into nodes kept unchanged and BucketFull events whose bucket is full of kept nodes; with the same id nothing changes. |
| `RoutingTable.RoutingTable.Reinsert` | peeroxide-dht/src/routing_table.rs:228-252 | Adding distinct old nodes one by one to the emptied table gives that split. |
| `RoutingTable.RoutingTable.Reset` | peeroxide-dht/src/routing_table.rs:228-252 | Empties the table under the new id. |
| `RoutingTable.RoutingTable.Drain` | peeroxide-dht/src/routing_table.rs:228-252 | Collects all nodes, bucket by bucket. |
| `RoutingTable.SplitStep` | peeroxide-dht/src/routing_table.rs:228-252 | Adding one more old node, kept or rejected, extends the split by that node. |
| `RoutingTable.SplitKept` | peeroxide-dht/src/routing_table.rs:228-252 | A node that fits extends the kept side and leaves all earlier rejections justified. |
| `RoutingTable.ScanMembers` | peeroxide-dht/src/routing_table.rs:183-220 | The scan order holds exactly the stored nodes. |
| `RoutingTable.ScanDistinct` | peeroxide-dht/src/routing_table.rs:183-220 | The scan order holds no id twice. |
| `RoutingTable.ScanLength` | peeroxide-dht/src/routing_table.rs:183-220 | The scan order is as long as the table is large. |
| `RoutingTable.ScanStructure` | peeroxide-dht/src/routing_table.rs:183-220 | Nodes of the target bucket come first and are strictly XOR-nearer than any other; the downward scan visits buckets in strictly increasing distance; buckets above come last. |
| `RoutingTable.NearerBucketIsNearer` | peeroxide-dht/src/routing_table.rs:183-220 | A node of a bucket with a longer common prefix with the target is strictly XOR-nearer, whatever the bucket contents. |
| `RoutingTable.NearestBucketsIff` | peeroxide-dht/src/routing_table.rs:183-220 | The first n scanned nodes are a bucket-wise nearest set if and only if the scan does not take n past the target bucket, short of the whole table, while nodes are stored both below and above it. |
| `RoutingTable.ClosestMissesNearer` | peeroxide-dht/src/routing_table.rs:183-220 | The condition can fail: with local id zero, nodes 0x80 and 0x20 and target 0x40, the one node returned is the farther of the two stored ones. |
| `RoutingTable.LocalTargetNearest` | peeroxide-dht/src/routing_table.rs:183-220 | For the local id as target no node left out is in a nearer bucket than one returned. |
| `RoutingTable.PrefixByBucket` | peeroxide-dht/src/routing_table.rs:321-328 | How long a prefix a node shares with the target follows from the two bucket indices. |
| `XorMetric.PrefixLengthMeaning` | peeroxide-dht/src/routing_table.rs:321-328 | The byte-wise prefix length counts exactly the leading bits on which two ids agree. |
| `XorMetric.LongerPrefixIsNearer` | peeroxide-dht/src/routing_table.rs:321-328 | A longer common prefix with the target means a strictly smaller XOR distance. |
| `RelayRuns.PairingConservation` | peeroxide-dht/src/blind_relay.rs:685-757 | Under every interleaving of pair, unpair, release and sweep steps, each token in the table has exactly one link; the pending counter is the table size; requested = in progress + already pairing + pending + 2 * matched + cancelled; and each accepted link joins at most one match, with the opposite role on the same token. |
| `RelayRuns.RelayLimits` | peeroxide-dht/src/blind_relay.rs:582-681 | Under every interleaving, including of the load, the compare-and-exchange and the two increments after it: pending links of a session <= its pairing count <= the cap; accepted minus released sessions plus those being accepted is the session count and within the limit; active = matches minus teardown signals; and a released session holds no pending link. |
| `RelayOrigins.PairingsExact` | peeroxide-dht/src/blind_relay.rs:685-757 | After every run the pending table holds exactly the pair requests that found none on their token and were not since matched, cancelled by their session, dropped with it or swept, each with its session, role, stream id and time; and the matches are, in order, exactly the pair requests that found one waiting in the other role. |
| `RelayOrigins.MatchOrigins` | peeroxide-dht/src/blind_relay.rs:711-739 | Every match of every run comes from two earlier pair requests on its token, in opposite roles: its links have their sessions, stream ids and times, the earlier first. |
| `RelayOrigins.SweepExact` | peeroxide-dht/src/blind_relay.rs:876-901 | In every run a sweep keeps a pending token if and only if the request that waits on it was made no longer than the timeout before. |
| `RelayOrigins.CountersExact` | peeroxide-dht/src/blind_relay.rs:685-825 | In every run the pairing counter of a session is the number of its requests that began to wait, less those that it cancelled itself. |
| `RelayOrigins.SignalsExact` | peeroxide-dht/src/blind_relay.rs:668-840 | Each step signals exactly the registrations that it takes out of the active table, once each, with token and both sessions. |
| `RelayTeardown.ActiveExact` | peeroxide-dht/src/blind_relay.rs:765-833 | After every interleaving the active table holds exactly the matches that were registered and not torn down, released or replaced since. |
| `RelayTeardown.ReleasedNamedIff` | peeroxide-dht/src/blind_relay.rs:636-783 | After any run in which the active pairings of a session were torn down, the active table names that session again if and only if one of its matches was registered after the teardown and not removed or replaced since. |
| `RelayTeardown.ReleasedNamedAgain` | peeroxide-dht/src/blind_relay.rs:636-783 | It happens: two accepted sessions match on a token, one of them is released, and the registration after that leaves the table naming it. |
| `RelayTeardown.ActiveCountExact` | peeroxide-dht/src/blind_relay.rs:765-833 | After every run the active counter exceeds the active table by exactly the matches not registered yet plus the registrations that overwrote one on the same token. |
| `RelayRuns.StepInv` | peeroxide-dht/src/blind_relay.rs:582-901 | Every critical section, taken from any state that satisfies the invariant, keeps it. |
| `RelayRuns.ClearPendingInv` | peeroxide-dht/src/blind_relay.rs:636-667 | A release drops every pending link of its session and leaves all entries without one untouched. |
| `RelayRuns.ClearActiveInv` | peeroxide-dht/src/blind_relay.rs:668-681 | A release removes exactly the active entries naming its session, each with exactly one more teardown signal, and leaves the others as they were. |
| `RelayRuns.SweepInv` | peeroxide-dht/src/blind_relay.rs:876-901 | A sweep drops exactly the entries whose oldest link has expired. |
| `Relay.BlindRelayServer.constructor` | peeroxide-dht/src/blind_relay.rs:555-568 | The server starts with empty tables and zero counters. |
| `Relay.BlindRelayServer.LoadSessionCount` | peeroxide-dht/src/blind_relay.rs:582-605 | The load gives up exactly when the limit is reached, and remembers what it read. |
| `Relay.BlindRelayServer.CompareExchangeSession` | peeroxide-dht/src/blind_relay.rs:582-600 | Raises the count exactly if it is still what was loaded. |
| `Relay.BlindRelayServer.TakeSessionId` | peeroxide-dht/src/blind_relay.rs:600-600 | Takes the next session id. |
| `Relay.BlindRelayServer.CountAccepted` | peeroxide-dht/src/blind_relay.rs:601-603 | Counts the session as accepted, which opens it. |
| `Relay.BlindRelayServer.TryAcceptSession` | peeroxide-dht/src/blind_relay.rs:582-605 | Without interference a session is accepted exactly below the limit. |
| `Relay.BlindRelayServer.BeginPair` | peeroxide-dht/src/blind_relay.rs:685-704 | The request is counted exactly if the session is below its cap. |
| `Relay.BlindRelayServer.FinishPairing` | peeroxide-dht/src/blind_relay.rs:705-757 | The critical section of a pair request, and its outcome: duplicate, waiting, or matched with the other side. |
| `Relay.BlindRelayServer.TakeSlot` | peeroxide-dht/src/blind_relay.rs:705-757 | In a free slot the link waits, or completes the pair and takes the entry out of the table. |
| `Relay.BlindRelayServer.TryPair` | peeroxide-dht/src/blind_relay.rs:685-757 | Refused exactly at the cap, without any change; otherwise both parts in sequence; the session counter grows only when the link waits, and a match is appended only when one is reported. |
| `Relay.BlindRelayServer.MarkActive` | peeroxide-dht/src/blind_relay.rs:765-783 | Registers the streams of one match under its token. |
| `Relay.BlindRelayServer.Unpair` | peeroxide-dht/src/blind_relay.rs:791-820 | Cancels a pending link only if the session holds it; tears an active pairing down only if the token is not pending; otherwise changes nothing. |
| `Relay.BlindRelayServer.UnpairPending` | peeroxide-dht/src/blind_relay.rs:791-820 | Clears the slots of the session, removes an emptied entry, and lowers the counters only then. |
| `Relay.BlindRelayServer.UnpairActive` | peeroxide-dht/src/blind_relay.rs:825-833 | Removes the entry and signals both sides exactly once. |
| `Relay.BlindRelayServer.ClearSlots` | peeroxide-dht/src/blind_relay.rs:791-820 | Empties exactly the slots the session holds, and tells whether there was one. |
| `Relay.BlindRelayServer.ReleaseSession` | peeroxide-dht/src/blind_relay.rs:636-681 | A release is its three steps in sequence: the slot, the pending links, the active pairings. |
| `Relay.BlindRelayServer.GiveBackSlot` | peeroxide-dht/src/blind_relay.rs:636-681 | One session fewer; the session is closing. |
| `Relay.BlindRelayServer.DropPending` | peeroxide-dht/src/blind_relay.rs:636-667 | All entries that hold only links of the session go, and are counted as cancelled. |
| `Relay.BlindRelayServer.RetainPending` | peeroxide-dht/src/blind_relay.rs:636-667 | The retain loop drops and counts exactly those entries. |
| `Relay.BlindRelayServer.TearDownActive` | peeroxide-dht/src/blind_relay.rs:668-681 | All active entries naming the session go, each with a signal. |
| `Relay.BlindRelayServer.RetainActive` | peeroxide-dht/src/blind_relay.rs:668-681 | The retain loop removes exactly the entries naming the session, with one signal each. |
| `Relay.BlindRelayServer.SweepExpiredPairings` | peeroxide-dht/src/blind_relay.rs:876-901 | Drops the expired entries and returns how many there were. |
| `Relay.BlindRelayServer.RetainFresh` | peeroxide-dht/src/blind_relay.rs:876-901 | The retain loop keeps exactly the entries that have not expired. |
| `Relay.BlindRelaySession.constructor` | peeroxide-dht/src/blind_relay.rs:927-939 | A session starts with no pairings counted and none reported. |
| `Relay.BlindRelaySession.OnMessage` | peeroxide-dht/src/blind_relay.rs:995-1034 | The local pairing counter always agrees with the links counted for the session; a pair or unpair message has its server-side effect and no other; malformed and unknown messages and refused pairs change nothing; every match is reported once. |
| `MuxRuns.Pairing` | peeroxide-dht/src/protomux.rs:1011-1085 | For two connected muxes and any run of creates, sends, corks and reads, no frame is refused, and open channels pair one to one with equal keys, in order of creation per key. |
| `MuxRuns.Delivery` | peeroxide-dht/src/protomux.rs:1127-1161 | In every such run a channel reports nothing before it opens, then Opened once with the handshake of the other side, then a prefix of the messages sent on its partner, in order; all of them once every frame is read and no batch is held back, whether they were sent singly, before pairing, or corked. |
| `MuxRuns.AllPaired` | peeroxide-dht/src/protomux.rs:1011-1085 | On either side, once all frames of the other side are read, the k-th channel of a key is open exactly if the other side has created a k-th channel of that key. |
| `MuxRuns.RunInv` | peeroxide-dht/src/protomux.rs:794-1161 | The invariant of the two muxes and the frames between them is kept by every move. |
| `MuxFrames.OpenRoundTrip` | peeroxide-dht/src/protomux.rs:281-359 | An open frame decodes to itself, with empty id and handshake read as absent. |
| `MuxFrames.MessageRoundTrip` | peeroxide-dht/src/protomux.rs:281-359 | A message frame decodes to itself if and only if its channel is not 0, the id of control frames. |
| `MuxFrames.BatchRoundTrip` | peeroxide-dht/src/protomux.rs:183-359 | A batch decodes to itself if and only if it is not empty and none of its items is. |
| `MuxFrames.KeyMeaning` | peeroxide-dht/src/protomux.rs:676-681 | Two channels have the same key exactly if protocol and id agree, an empty id counting as none. |
| `Mux.WriteOpen` | peeroxide-dht/src/protomux.rs:107-130 | The size pass and the writes give the specified open frame. |
| `Mux.WriteMessage` | peeroxide-dht/src/protomux.rs:165-178 | The size pass and the writes give the specified message frame. |
| `Mux.WriteInner` | peeroxide-dht/src/protomux.rs:905-915 | A corked message is stored as its type and its data. |
| `Mux.WriteBatch` | peeroxide-dht/src/protomux.rs:183-223 | The two loops over the items, sizing and writing with a change of channel marked by a zero length, give the specified batch frame. |
| `Mux.SizeItems` | peeroxide-dht/src/protomux.rs:183-223 | The size loop reserves exactly the bytes of the encoded items. |
| `Mux.WriteItems` | peeroxide-dht/src/protomux.rs:183-223 | The write loop writes exactly the encoded items. |
| `Mux.ReadItems` | peeroxide-dht/src/protomux.rs:330-359 | The batch loop over the cursor reads what the recursive definition of a batch does, with the same errors. |
| `Mux.ReadControl` | peeroxide-dht/src/protomux.rs:300-359 | Reads a control frame by its type, with the same errors. |
| `Mux.ReadFrame` | peeroxide-dht/src/protomux.rs:281-359 | Reads a frame of any kind, with the same errors. |
| `Mux.Drain` | peeroxide-dht/src/protomux.rs:860-870 | Buffered messages become events in the order in which they came. |
| `Mux.MuxState.constructor` | peeroxide-dht/src/protomux.rs:653-662 | A new mux has no channels, no cork and nothing written. |
| `Mux.MuxState.Queue` | peeroxide-dht/src/protomux.rs:948-957 | Appends one frame; what is written stays the encoding of the frames sent. |
| `Mux.MuxState.CreateChannel` | peeroxide-dht/src/protomux.rs:794-888 | Creates the next local channel, pairs it with the oldest waiting remote one of its key or queues it, and writes an open frame. |
| `Mux.MuxState.AddLocal` | peeroxide-dht/src/protomux.rs:794-888 | The channel tables change as specified: pair with the oldest waiting remote channel and drain its buffer, or wait. |
| `Mux.MuxState.SendMessage` | peeroxide-dht/src/protomux.rs:890-919 | Writes a message frame, or adds to the batch while corked. |
| `Mux.MuxState.Cork` | peeroxide-dht/src/protomux.rs:773-775 | One level of cork more. |
| `Mux.MuxState.Uncork` | peeroxide-dht/src/protomux.rs:776-790 | One level less; at zero the batch goes out as one frame, or not at all if empty. |
| `Mux.MuxState.HandleIncoming` | peeroxide-dht/src/protomux.rs:961-984 | Frames are accepted exactly if they decode and can be handled, and the state after is given either way: the handled frame, the items before a malformed one, or nothing for a frame that does not decode. |
| `Mux.MuxState.HandleFrame` | peeroxide-dht/src/protomux.rs:961-1009 | Each kind of frame is handled as specified, with the state after a refused one; close and reject frames are not accepted by the model. |
| `Mux.MuxState.HandleOpen` | peeroxide-dht/src/protomux.rs:1011-1085 | A remote open pairs with the oldest waiting local channel of its key or is queued; an id in use is refused. |
| `MuxSpec.AfterHandled` | peeroxide-dht/src/protomux.rs:961-1085 | The state after a frame is that of handling it if it is accepted, and unchanged for an open whose id is in use. |
| `Mux.MuxState.PlaceOpen` | peeroxide-dht/src/protomux.rs:1011-1085 | The same, for an id whose place exists. |
| `Mux.MuxState.DispatchMessage` | peeroxide-dht/src/protomux.rs:1127-1152 | Goes to the paired channel as an event, or into the buffer of a remote channel that is not paired yet. |
| `Mux.MuxState.DispatchBatch` | peeroxide-dht/src/protomux.rs:1154-1161 | The items of a batch are dispatched one by one, in order, up to the first malformed one. |
| `NoiseRuns.XXAgreement` | peeroxide-dht/src/noise.rs:358-614 | For all static and ephemeral keys an honest XX run completes on both sides with equal handshake hash, crossed send and receive keys, the right remote static keys, and cipher states in lockstep. |
| `NoiseRuns.IKAgreement` | peeroxide-dht/src/noise.rs:640-855 | For all keys, prologues and payloads an honest IK run completes likewise, and both payloads arrive unchanged. |
| `NoiseKeys.XXTranscript` | peeroxide-dht/src/noise.rs:284-614 | An honest XX run written out for all secrets: each message, the handshake hash, and on both sides two different session keys, the first HKDF output of the chain over ee, es and se for what the initiator sends and the second for what it receives. |
| `NoiseKeys.IKTranscript` | peeroxide-dht/src/noise.rs:284-855 | An honest IK run written out for all secrets, prologues and payloads, likewise, over es, ss, ee and se. |
| `NoiseKeys.SessionKeysDiffer` | peeroxide-dht/src/noise.rs:284-291 | The two keys of a split differ. |
| `NoiseRuns.IKAccepts` | peeroxide-dht/src/noise.rs:747-780 | A responder accepts an initiator's first message if and only if the initiator used its static key and the same prologue. |
| `NoiseRuns.XXBinding` | peeroxide-dht/src/noise.rs:431-614 | If two completed XX parties, with any messages delivered in between, have the same handshake hash, then every message arrived as it was sent and they agree on all keys. |
| `NoiseRuns.IKBinding` | peeroxide-dht/src/noise.rs:640-855 | If two completed IK parties, with any keys, prologues and messages delivered in between, have the same handshake hash, then they started from the same prologue and key, both messages arrived as sent with their payloads, and they agree on all keys. |
| `NoiseRuns.NoReuse` | peeroxide-dht/src/noise.rs:181-300 | Whatever sequence of send and receive calls is made, no XX or IK party uses a key with the same nonce twice. |
| `NoiseRuns.NoJointReuse` | peeroxide-dht/src/noise.rs:181-300 | Two parties in lockstep never encrypt under the same key and nonce. |
| `NoiseRuns.XXReusesNothing` | peeroxide-dht/src/noise.rs:358-614 | Over every honest XX run, for all keys, neither party uses a key and nonce twice and no encryption of one shares them with one of the other. |
| `NoiseRuns.IKReusesNothing` | peeroxide-dht/src/noise.rs:640-855 | Likewise over every honest IK run, for all keys, prologues and payloads. |
| `NoiseRuns.DhMeets` | peeroxide-dht/src/noise.rs:124-143 | Both sides of a key exchange compute the same point. |
| `NoiseRuns.SealOpen` | peeroxide-dht/src/noise.rs:264-278 | What one side encrypts and hashes the side in lockstep decrypts, and they stay in lockstep, with or without a key. |
| `NoiseRuns.ChainInjective` | peeroxide-dht/src/noise.rs:250-252 | The running digest determines the sequence of what was mixed into it. |
| `Noise.CipherState.constructor` | peeroxide-dht/src/noise.rs:156-158 | No key, nonce zero. |
| `Noise.CipherState.SetKey` | peeroxide-dht/src/noise.rs:164-167 | A new key restarts the nonce. |
| `Noise.CipherState.EncryptWithAd` | peeroxide-dht/src/noise.rs:181-196 | Seals under key, nonce and associated data and advances the nonce; without a key the text passes through. |
| `Noise.CipherState.DecryptWithAd` | peeroxide-dht/src/noise.rs:200-216 | Opens only what was sealed under the same key, nonce and associated data, and advances the nonce only then. |
| `Noise.SymmetricState.constructor` | peeroxide-dht/src/noise.rs:235-247 | Digest and chaining key start from the protocol name. |
| `Noise.SymmetricState.MixHash` | peeroxide-dht/src/noise.rs:250-252 | The digest absorbs the data. |
| `Noise.SymmetricState.MixKey` | peeroxide-dht/src/noise.rs:255-261 | Chaining key and cipher key are derived anew. |
| `Noise.SymmetricState.EncryptAndHash` | peeroxide-dht/src/noise.rs:264-269 | The sealed text is absorbed into the digest it was bound to. |
| `Noise.SymmetricState.DecryptAndHash` | peeroxide-dht/src/noise.rs:273-278 | The sealed text is absorbed only if it opens. |
| `Noise.SymmetricState.SplitKeys` | peeroxide-dht/src/noise.rs:284-291 | The two transport keys, from the chaining key. |
| `Noise.SymmetricState.SealStatic` | peeroxide-dht/src/noise.rs:470-578 | The static key is sealed, the next exchange mixed in, and the payload sealed. |
| `Noise.SymmetricState.OpenStatic` | peeroxide-dht/src/noise.rs:503-614 | The mirror: open the static key, mix, open the payload, with the error cases in this order. |
| `Noise.HandshakeState.XX` | peeroxide-dht/src/noise.rs:358-375 | Both roles of XX start the same but for the role. |
| `Noise.HandshakeState.Initiator` | peeroxide-dht/src/noise.rs:640-655 | The IK initiator absorbs prologue and remote key. |
| `Noise.HandshakeState.Responder` | peeroxide-dht/src/noise.rs:658-673 | The IK responder absorbs prologue and its own key. |
| `Noise.HandshakeState.WriteE` | peeroxide-dht/src/noise.rs:431-446 | Message 1 of XX is sent as specified, errors included. |
| `Noise.HandshakeState.ReadE` | peeroxide-dht/src/noise.rs:449-464 | Message 1 of XX is received, too short ones refused. |
| `Noise.HandshakeState.WriteEeSEs` | peeroxide-dht/src/noise.rs:470-500 | Message 2 of XX is sent as specified. |
| `Noise.HandshakeState.ReadEeSEs` | peeroxide-dht/src/noise.rs:503-544 | Message 2 of XX is received, failing at the same point for a short or forged message. |
| `Noise.HandshakeState.WriteSSe` | peeroxide-dht/src/noise.rs:550-578 | Message 3 of XX is sent and completes the initiator. |
| `Noise.HandshakeState.ReadSSe` | peeroxide-dht/src/noise.rs:581-614 | Message 3 of XX is received and completes the responder. |
| `Noise.HandshakeState.SendXXMessage` | peeroxide-dht/src/noise.rs:400-410 | Sending is possible exactly at the steps of the role. |
| `Noise.HandshakeState.RecvXXMessage` | peeroxide-dht/src/noise.rs:416-426 | Receiving is possible exactly at the steps of the role. |
| `Noise.HandshakeState.WriteEsSs` | peeroxide-dht/src/noise.rs:721-745 | Message 1 of IK is sent with its payload. |
| `Noise.HandshakeState.ReadEsSs` | peeroxide-dht/src/noise.rs:747-780 | Message 1 of IK is received, the remote key adopted. |
| `Noise.HandshakeState.WriteEeSe` | peeroxide-dht/src/noise.rs:784-816 | Message 2 of IK is sent and completes the responder. |
| `Noise.HandshakeState.ReadEeSe` | peeroxide-dht/src/noise.rs:818-855 | Message 2 of IK is received and completes the initiator. |
| `Noise.HandshakeState.SendIKMessage` | peeroxide-dht/src/noise.rs:696-705 | Sending is possible exactly at the steps of the role. |
| `Noise.HandshakeState.RecvIKMessage` | peeroxide-dht/src/noise.rs:708-717 | Receiving is possible exactly at the steps of the role. |
| `IoRuns.WindowBound` | peeroxide-dht/src/io.rs:244-286 | In every run the window total is the sum of its four quarters, each quarter is at most the maximum plus its own retries that are still counted, and the total is at most twice the maximum plus the sum over the quarters of min(retries, window). |
| `IoRuns.Accounting` | peeroxide-dht/src/io.rs:442-572 | In every run active requests are the in-flight entries, and total = active + responses + timeouts. |
| `IoRuns.TimeoutsExact` | peeroxide-dht/src/io.rs:442-480 | One timeout pass resends exactly the expired entries with retries left, and keeps all others as they were; it drops exactly the expired exhausted ones, reported last first. |
| `IoRuns.RemovesExactly` | peeroxide-dht/src/io.rs:466-480 | Removing ascending indices from the last to the first by swap removal takes out exactly the entries that were at them. |
| `IoSends.SendsExact` | peeroxide-dht/src/io.rs:442-480 | In every run a request in flight was sent at most once more than its retries, unless it was sent when that often already, and then exactly once more for each such late send. |
| `IoSends.TimedOutSends` | peeroxide-dht/src/io.rs:442-480 | In every run a request that times out was sent exactly once more than its retries, plus its late sends. |
| `IoSends.LateOnlyByDrain` | peeroxide-dht/src/io.rs:400-480 | Only the draining of the queue sends a request late; no retry, creation or response does. |
| `IoSends.AtMostOneLate` | peeroxide-dht/src/io.rs:400-572 | While no transaction id comes round again in use, a request is sent at most twice more than its retries, and that often if and only if it was sent late, once, which takes that it had waited in the queue. |
| `IoSends.SentTwice` | peeroxide-dht/src/io.rs:400-572 | It happens: with a window of one, the second of two requests without retries is sent by its retry and again from the queue. |
| `IoOrigins.EntryOrigins` | peeroxide-dht/src/io.rs:442-650 | In every run each request in flight goes back to one call: what it asks, its retries and its timeout are those of the call, its transaction id was next in turn, and it is due its timeout after the call or after a later step that sends again. |
| `IoOrigins.TidAt` | peeroxide-dht/src/io.rs:485-650 | Transaction ids are handed out one after the other modulo 65536, one for each call with a valid address. |
| `IoOrigins.RespondExact` | peeroxide-dht/src/io.rs:1061-1080 | A response takes exactly one request of its id out, counts it and frees a place in the window; a response to no request changes nothing. |
| `IoOrigins.TimeoutsMove` | peeroxide-dht/src/io.rs:442-480 | A timeout check takes a place in the current quarter for each retry and then frees one for each request dropped, down to zero. |
| `IoOrigins.FlushInOrder` | peeroxide-dht/src/io.rs:400-428 | A drain takes the queue in order until the window is full or the queue empty, and sends exactly the requests taken that are still in flight. |
| `IoOrigins.CreateQueues` | peeroxide-dht/src/io.rs:530-572 | A request that finds the window full waits at the end of the queue, unsent; another is sent once and takes a place. |
| `Io.CongestionWindow.constructor` | peeroxide-dht/src/io.rs:245-252 | An empty window. |
| `Io.CongestionWindow.Full` | peeroxide-dht/src/io.rs:255-257 | Full by the total or by the current quarter. |
| `Io.CongestionWindow.Recv` | peeroxide-dht/src/io.rs:260-265 | A response takes one off the current quarter and the total, if there is one in the quarter. |
| `Io.CongestionWindow.Send` | peeroxide-dht/src/io.rs:268-271 | A send adds one to both. |
| `Io.CongestionWindow.Drain` | peeroxide-dht/src/io.rs:274-278 | The next quarter becomes current and gives back all it held. |
| `Io.IoLayer.SendInflightAt` | peeroxide-dht/src/io.rs:963-984 | The entry is sent once more and counted in the window. |
| `Io.IoLayer.CreateRequest` | peeroxide-dht/src/io.rs:485-572 | A valid request gets the next transaction id, which wraps at 16 bits, enters the in-flight table, and is sent at once or queued behind a full window; an invalid one leaves only the used-up id. |
| `Io.IoLayer.SendRequestVia` | peeroxide-dht/src/io.rs:580-650 | A request on a given socket bypasses the window and has no retries. |
| `Io.IoLayer.FindInflight` | peeroxide-dht/src/io.rs:1061-1080 | The first entry with that transaction id. |
| `Io.IoLayer.OnResponse` | peeroxide-dht/src/io.rs:1061-1080 | Matches exactly if some entry in flight has the id; swap removal takes it out and counts a response. |
| `Io.IoLayer.CheckForTimeouts` | peeroxide-dht/src/io.rs:442-480 | Both passes in place, with the timeout events they report. |
| `Io.IoLayer.Sort` | peeroxide-dht/src/io.rs:442-465 | The indices to drop and to retry, ascending. |
| `Io.IoLayer.RetryEach` | peeroxide-dht/src/io.rs:442-465 | Resends the entries at the given indices. |
| `Io.IoLayer.DropEach` | peeroxide-dht/src/io.rs:466-480 | The descending swap-removal loop. |
| `Io.IoLayer.DrainWindow` | peeroxide-dht/src/io.rs:400-428 | Drains the oldest quarter and sends queued requests while the window has room. |
| `RouterRuns.NoLoops` | peeroxide-dht/src/router.rs:200-288 | For any forward tables at any time on all nodes, one client handshake request leads to at most three routed requests and at most one response, on the client's transaction id. |
| `RouterRuns.Advances` | peeroxide-dht/src/router.rs:200-288 | Handling a request sends exactly one packet with the same transaction id, and a routed request is strictly further along, for the same target. |
| `RouterTable.LookupFinds` | peeroxide-dht/src/hyperdht.rs:2583-2605 | Over every sequence of announces, registrations, unregistrations and collections a lookup finds the relay `from` if and only if the last of them on the target that took effect announced `from` at most twenty minutes before, and a server if and only if the last registration was not undone. |
| `RouterTable.OneRelay` | peeroxide-dht/src/hyperdht.rs:2656-2830 | From an announce to the answer: if the relay's last effective operation on the target is the server's announce, at most twenty minutes ago, and the server serves it, the client gets exactly one response from the relay on its own id and accepts it, with the server's noise bytes and address. |
| `RouterRuns.RelayRound` | peeroxide-dht/src/hyperdht.rs:2656-2830 | Through one relay that knows the server, the client gets exactly one response from the relay on its own id, carrying the server's noise bytes and address, and accepts it. |
| `RouterTable.ClientRouted` | peeroxide-dht/src/router.rs:222-241 | A client's handshake at a node that does not serve the target goes to the relay it names, else to the one last announced, else is answered without a value. |
| `RouterTable.ServerRouted` | peeroxide-dht/src/router.rs:214-221 | A node that serves the target hands its server the handshakes of clients and relays, answers them on the same id, and refuses every other mode. |
| `RouterTable.PunchRouted` | peeroxide-dht/src/router.rs:290-352 | A client's holepunch message goes to the peer it names, else to the relay last announced; one from a relay reaches the server only at a node that serves the target; unknown modes are ignored. |
| `RouterRuns.RelayForwards` | peeroxide-dht/src/router.rs:200-288 | The relay forwards the client's noise bytes to the server with the client's address. |
| `RouterRuns.ServerAnswers` | peeroxide-dht/src/relay_service.rs:298-309 | The server answers a relayed handshake with a request back to the relay that names the client. |
| `RouterRuns.RelayFinishes` | peeroxide-dht/src/router.rs:200-288 | The relay turns the server's message into the reply to the client. |
| `RouterTable.TwoRelays` | peeroxide-dht/src/hyperdht.rs:2656-2830 | Through two relays the client gets one response on its own id with the server's noise bytes and address, from the second relay, and accepts it if and only if that is the relay it asked. |
| `RouterRuns.TwoRelayRound` | peeroxide-dht/src/hyperdht.rs:2656-2830 | The same for any tables with such entries. |
| `RouterRuns.SecondForwards` | peeroxide-dht/src/router.rs:200-288 | A relay that knows another for the target forwards the handshake to it, naming itself. |
| `RouterRuns.SecondAnswered` | peeroxide-dht/src/relay_service.rs:298-309 | The server answers the second relay, for the client. |
| `RouterRuns.Direct` | peeroxide-dht/src/router.rs:117-143 | Without a relay the client gets and accepts the server's answer, with the address it asked. |
| `RouterRuns.PunchThroughRelay` | peeroxide-dht/src/router.rs:145-352 | A holepunch message reaches the server through the relay unchanged and with the client's address, and the answer reaches the client with the server's address. |
| `RouterRuns.CollectInvisible` | peeroxide-dht/src/router.rs:95-115 | Garbage collection never changes what a lookup at that time or later finds. |
| `RouterRuns.ServerStays` | peeroxide-dht/src/router.rs:91-115 | A registered server stays found at any time, through announces, other registrations and collections, until it is unregistered. |
| `Router.ForwardTable.Set` | peeroxide-dht/src/router.rs:91-93 | Replaces the entry of the target only. |
| `Router.ForwardTable.Get` | peeroxide-dht/src/router.rs:95-106 | Finds the entry exactly if it is a server's or not older than twenty minutes. |
| `Router.ForwardTable.Delete` | peeroxide-dht/src/router.rs:108-110 | Removes the entry of the target only. |
| `Router.ForwardTable.Gc` | peeroxide-dht/src/router.rs:112-115 | Keeps exactly the entries a lookup would find. |
| `Router.ForwardTable.OnAnnounce` | peeroxide-dht/src/hyperdht.rs:2583-2609 | An announce makes the announcer the relay of the target unless this node is its server. |
| `Router.ForwardTable.RegisterServer` | peeroxide-dht/src/hyperdht.rs:1124-1135 | The target is served here. |
| `Router.ForwardTable.UnregisterServer` | peeroxide-dht/src/hyperdht.rs:1138-1142 | The target is no longer served here. |
| `Router.PeerRequest.Reply` | peeroxide-dht/src/rpc.rs:201-206 | The one-shot slot takes a first answer and ignores later ones. |
| `Router.PeerRequest.Error` | peeroxide-dht/src/rpc.rs:208-213 | Likewise for an error code. |
| `Router.PeerRequest.Release` | peeroxide-dht/src/rpc.rs:227-231 | Gives the slot up without an answer. |
| `Router.PeerRequest.Close` | peeroxide-dht/src/rpc.rs:1035-1051 | An answered request sends its answer, an unanswered one an error, a released one nothing. |
| `Router.PeerRequest.HandleHandshake` | peeroxide-dht/src/hyperdht.rs:2656-2830 | The dispatch, with its effects on the reply slot and the sends, emits exactly the packets of the specification. |
| `Router.PeerRequest.AnswerLocally` | peeroxide-dht/src/hyperdht.rs:2656-2830 | The local server's branch always settles the slot, and answers or sends back along the relay. |
| `Codec.UintRoundTrip` | peeroxide-dht/src/compact_encoding.rs:268-312 | Every 64-bit number, followed by any bytes, decodes to itself and leaves exactly those bytes. |
| `Codec.IntRoundTrip` | peeroxide-dht/src/compact_encoding.rs:314-335 | Likewise for every signed 64-bit number. |
| `Codec.ZigzagBijective` | peeroxide-dht/src/compact_encoding.rs:314-335 | Zigzag is 2n or -2n-1, and its two directions undo each other on all values. |
| `Codec.LittleEndianRoundTrip` | peeroxide-dht/src/compact_encoding.rs:126-187 | Fixed-width numbers decode to themselves at every width they fit. |
| `Codec.LittleEndianOnto` | peeroxide-dht/src/compact_encoding.rs:126-187 | Every byte string is the encoding of the number it decodes to. |
| `Codec.Halves` | peeroxide-dht/src/compact_encoding.rs:247-265 | The two 32-bit halves written one after the other are the 64-bit encoding. |
| `Codec.BufferRoundTrip` | peeroxide-dht/src/compact_encoding.rs:471-506 | Buffers decode to themselves, empty ones as absent, leaving what follows. |
| `Cursor.EncodingState.Alloc` | peeroxide-dht/src/compact_encoding.rs:74-78 | Grows the buffer to the reserved size and keeps what was in it. |
| `Cursor.EncodingState.WriteUint8` | peeroxide-dht/src/compact_encoding.rs:107-110 | Appends one byte to what is written. |
| `Cursor.EncodingState.WriteUint16` | peeroxide-dht/src/compact_encoding.rs:126-131 | Appends the two bytes, low first. |
| `Cursor.EncodingState.WriteUint32` | peeroxide-dht/src/compact_encoding.rs:170-174 | Appends the four bytes, low first. |
| `Cursor.EncodingState.WriteUint64` | peeroxide-dht/src/compact_encoding.rs:252-257 | Appends the eight bytes as two halves. |
| `Cursor.EncodingState.PreencodeUint` | peeroxide-dht/src/compact_encoding.rs:268-278 | Reserves exactly the length of the encoding. |
| `Cursor.EncodingState.WriteUint` | peeroxide-dht/src/compact_encoding.rs:281-297 | Appends the shortest of the four forms. |
| `Cursor.EncodingState.ReadUint8` | peeroxide-dht/src/compact_encoding.rs:113-118 | Reads one byte, or fails at the end without moving. |
| `Cursor.EncodingState.ReadUint16` | peeroxide-dht/src/compact_encoding.rs:134-139 | Reads what the decoding function does, or fails likewise. |
| `Cursor.EncodingState.ReadUint32` | peeroxide-dht/src/compact_encoding.rs:177-187 | Reads what the decoding function does, or fails likewise. |
| `Cursor.EncodingState.ReadUint64` | peeroxide-dht/src/compact_encoding.rs:260-265 | The two halves read together are the 64-bit number. |
| `Cursor.EncodingState.ReadUint` | peeroxide-dht/src/compact_encoding.rs:300-312 | Reads by the first byte, with the error of the decoding function. |
| `Cursor.EncodingState.PreencodeBuffer` | peeroxide-dht/src/compact_encoding.rs:471-479 | Reserves exactly the length of the encoding. |
| `Cursor.EncodingState.WriteBuffer` | peeroxide-dht/src/compact_encoding.rs:482-494 | Appends length and bytes; an absent buffer is a zero. |
| `Cursor.EncodingState.ReadBuffer` | peeroxide-dht/src/compact_encoding.rs:497-506 | Reads an empty buffer as absent. |
| `Cursor.EncodingState.ReadFixed` | peeroxide-dht/src/compact_encoding.rs:551-556 | Reads exactly n bytes or fails. |
| `Messages.RequestRoundTrip` | peeroxide-dht/src/messages.rs:151-374 | Every well-formed request, followed by any bytes, decodes to its normal form and leaves exactly those bytes. |
| `Messages.ResponseRoundTrip` | peeroxide-dht/src/messages.rs:215-374 | Every well-formed response decodes to its normal form if it lists at most 1048576 nodes, and is refused otherwise. |
| `Messages.HeadRoundTrip` | peeroxide-dht/src/messages.rs:283-374 | The common head decodes to itself for every combination of flags. |
| `Messages.PeerRoundTrip` | peeroxide-dht/src/messages.rs:106-123 | An address decodes to itself. |
| `Messages.PeersRoundTrip` | peeroxide-dht/src/messages.rs:125-148 | A list of addresses decodes to itself up to the array limit, and is refused beyond it. |
| `Cursor.EncodingState.WritePeer` | peeroxide-dht/src/messages.rs:110-117 | Appends host bytes and port. |
| `Cursor.EncodingState.ReadPeer` | peeroxide-dht/src/messages.rs:119-123 | Reads an address or fails as the decoding function does. |
| `Cursor.EncodingState.PreencodePeers` | peeroxide-dht/src/messages.rs:125-128 | Reserves exactly the length of the list. |
| `Cursor.EncodingState.WritePeers` | peeroxide-dht/src/messages.rs:130-136 | The loop appends the count and every address. |
| `Cursor.EncodingState.ReadPeers` | peeroxide-dht/src/messages.rs:138-148 | Refuses a count over the limit, else reads that many. |
| `Cursor.EncodingState.ReadEach` | peeroxide-dht/src/messages.rs:138-148 | The loop reads n addresses or reports the first error. |
| `Cursor.EncodingState.PreencodeRequest` | peeroxide-dht/src/messages.rs:151-170 | The size pass reserves exactly the bytes that are written. |
| `Cursor.EncodingState.WriteRequest` | peeroxide-dht/src/messages.rs:173-212 | Flags built step by step, then the fields they announce: exactly the encoding. |
| `Cursor.EncodingState.PreencodeResponse` | peeroxide-dht/src/messages.rs:215-236 | The size pass reserves exactly the bytes that are written. |
| `Cursor.EncodingState.WriteResponse` | peeroxide-dht/src/messages.rs:239-280 | Flags built step by step, then the fields they announce: exactly the encoding. |
| `Cursor.EncodingState.ReadHead` | peeroxide-dht/src/messages.rs:283-374 | Reads version, flags and the fields they announce, with the same errors. |
| `Cursor.EncodingState.ReadRequestBody` | peeroxide-dht/src/messages.rs:283-374 | Reads the rest of a request, with the same errors. |
| `Cursor.EncodingState.ReadResponseBody` | peeroxide-dht/src/messages.rs:283-374 | Reads the rest of a response, with the same errors. |
| `Cursor.RequestToBytes` | peeroxide-dht/src/messages.rs:377-383 | Size pass, allocation and write pass together give the encoding. |
| `Cursor.ResponseToBytes` | peeroxide-dht/src/messages.rs:386-392 | Size pass, allocation and write pass together give the encoding. |
| `Cursor.MessageFromBytes` | peeroxide-dht/src/messages.rs:283-374 | The cursor-driven decoder returns what the decoding function does, for all bytes. |
| `HyperMessages.AnnounceRoundTrip` | peeroxide-dht/src/hyperdht_messages.rs:141-208 | Every well-formed announce, followed by any bytes, decodes to itself and leaves them if its list of relays is within the array limit, and is refused otherwise. |
| `HyperMessages.AnnounceSizeExact` | peeroxide-dht/src/hyperdht_messages.rs:141-177 | The size pass reserves exactly the bytes written; the flags fit in the one byte it assumes. |
| `HyperMessages.HandshakeRoundTrip` | peeroxide-dht/src/hyperdht_messages.rs:517-568 | Every handshake message, for every choice of addresses, followed by any bytes, decodes to itself and leaves them. |
| `HyperMessages.HandshakeSizeExact` | peeroxide-dht/src/hyperdht_messages.rs:517-543 | The size pass reserves exactly the bytes written. |
| `HyperMessages.HolepunchRoundTrip` | peeroxide-dht/src/hyperdht_messages.rs:601-643 | Likewise for holepunch messages. |
| `HyperMessages.HolepunchSizeExact` | peeroxide-dht/src/hyperdht_messages.rs:601-622 | The size pass reserves exactly the bytes written. |
| `HyperMessages.HolepunchPayloadRoundTrip` | peeroxide-dht/src/hyperdht_messages.rs:1088-1186 | Holepunch payloads decode to themselves, for all flags and optional fields, if their list is within the array limit, and are refused otherwise. Above 0xfc in a leading number these are more bytes than the sized buffer holds. |
| `HyperMessages.NoisePayloadRoundTrip` | peeroxide-dht/src/hyperdht_messages.rs:890-1038 | Noise payloads decode to their normal form, for all flag-dependent layouts, if all four lists are within the array limit, and are refused otherwise. Above 0xfc in error or firewall these are more bytes than the sized buffer holds. |
| `HyperMessages.HolepunchPayloadSizeExact` | peeroxide-dht/src/hyperdht_messages.rs:1088-1186 | The size pass reserves the bytes written if and only if error, firewall and round are at most 0xfc, and never too many. |
| `HyperMessages.NoisePayloadSizeExact` | peeroxide-dht/src/hyperdht_messages.rs:890-1038 | The size pass reserves the bytes written if and only if error and firewall are at most 0xfc. |
| `NatRuns.SamplesCount` | peeroxide-dht/src/nat.rs:86-104 | In every run both sample lists are distinct, sorted by hits, count exactly what was observed, and sum to the number of samples. |
| `NatRuns.AddKeepsTally` | peeroxide-dht/src/nat.rs:314-336 | One more sample, bubbled up, keeps a list that counts a multiset counting it. |
| `NatRuns.JudgeExact` | peeroxide-dht/src/nat.rs:222-267 | From three samples on the verdict is a property of the multiset of observed addresses, whatever it was before, except for the multisets that leave it exactly as it was. |
| `NatRuns.OrderFree` | peeroxide-dht/src/nat.rs:222-267 | Two never-frozen runs that observed the same addresses equally often agree on the verdict, at every number of samples, unless there are four samples among which the order decides. |
| `NatRuns.OrderMattersIff` | peeroxide-dht/src/nat.rs:222-267 | Two never-frozen runs with the same observed addresses can disagree if and only if there are exactly four samples, some address was seen twice and none three times, no two addresses were seen twice, and there is more than one host. |
| `NatRuns.BothOrders` | peeroxide-dht/src/nat.rs:222-267 | For every such multiset one order of it ends Unknown and another Random. |
| `NatRuns.OrderMattersAtFour` | peeroxide-dht/src/nat.rs:222-267 | An instance: one address twice and two others, of three hosts. |
| `NatRuns.TripleIsFinal` | peeroxide-dht/src/nat.rs:78-104 | In every run, once an address was observed three times and the classifier is not frozen, the verdict is Consistent and stays so whatever follows. |
| `NatOrigins.ObservedOnce` | peeroxide-dht/src/nat.rs:86-142 | In every run what is counted is exactly the first address that each observer saw, and visited are exactly the observers and the marked peers. |
| `NatOrigins.AddressesExact` | peeroxide-dht/src/nat.rs:269-298 | In every run of a firewalled node that is not frozen: no verdict reports nothing; Consistent reports every address seen at least twice, with others only to make up two, the most frequent first; Random reports, without port, one host seen as often as any. |
| `NatOrigins.SettledExact` | peeroxide-dht/src/nat.rs:86-133 | In every run a firewalled node has settled if and only if, after some observation that counted, it had four of them or was Consistent. |
| `NatRuns.ConsistentForever` | peeroxide-dht/src/nat.rs:78-104 | No observation, freezing, thawing or update takes back a Consistent verdict that rests on a triple hit. |
| `Nat.AddTo` | peeroxide-dht/src/nat.rs:314-336 | The in-place increment and bubble loop computes the specified list. |
| `Nat.Classifier.constructor` | peeroxide-dht/src/nat.rs:38-55 | Firewalled starts Unknown, else Open and settled. |
| `Nat.Classifier.AddObservation` | peeroxide-dht/src/nat.rs:86-104 | Each observer counts once; then the verdict is updated unless frozen or too early. |
| `Nat.Classifier.TrySettle` | peeroxide-dht/src/nat.rs:127-133 | Settles on a final verdict or enough samples. |
| `Nat.Classifier.Mark` | peeroxide-dht/src/nat.rs:135-142 | Tells whether the peer was new. |
| `Nat.Classifier.Freeze` | peeroxide-dht/src/nat.rs:68-70 | Only freezes. |
| `Nat.Classifier.Unfreeze` | peeroxide-dht/src/nat.rs:72-76 | Thaws and refreshes verdict and addresses. |
| `Nat.Classifier.Update` | peeroxide-dht/src/nat.rs:78-84 | A firewalled Open verdict is forgotten before the refresh. |
| `Nat.Classifier.UpdateFirewall` | peeroxide-dht/src/nat.rs:222-267 | The branches compute the specified verdict. |
| `Nat.Classifier.UpdateAddresses` | peeroxide-dht/src/nat.rs:269-297 | The loop collects every address hit twice, and the first two in any case. |
| `RecordRuns.CacheBounds` | peeroxide-dht/src/persistent.rs:129-246 | In every run of adds, removes and reads the total is the number of entries and stays within the limit, and each topic holds at most its limit of entries, all of different keys (a limit of zero acts as one). |
| `RecordRuns.LimitsKeptIff` | peeroxide-dht/src/persistent.rs:129-169 | Every run keeps the total within the size limit if and only if that limit is at least one, and likewise for the limit per topic. |
| `RecordRuns.FirstAdd` | peeroxide-dht/src/persistent.rs:129-169 | The first record added stays, whatever the limits: with a limit of zero the total is one. |
| `RecordOrigins.EntriesExact` | peeroxide-dht/src/persistent.rs:129-246 | In every run an add leaves its record in its topic with its key and time, no step puts in anything else, and an entry is lost only if its key is added again or removed, it is found expired, or it is the oldest of a full topic or of a full cache. |
| `RecordOrigins.EntryOrigin` | peeroxide-dht/src/persistent.rs:129-199 | In every run each cached entry goes back to an add of its topic, key, record and time, since when nothing replaced, removed or expired it. |
| `StoreRuns.GetsAuthentic` | peeroxide-dht/src/persistent.rs:626-756 | In every run both stores stay within their size; what a mutable get returns is a record signed by a key that hashes to the target and at least as recent as asked for; what an immutable get returns hashes to the target. |
| `StoreOrigins.GetsExact` | peeroxide-dht/src/persistent.rs:688-756 | In every run an immutable get returns a value if and only if it was put, is still there and has not expired; and a mutable get returns a record if and only if, in addition, its sequence number is at least the one asked for. |
| `StoreOrigins.EntryFrom` | peeroxide-dht/src/persistent.rs:282-301 | In every run an entry of a store has the value and time of the last put that wrote its key, and was not the victim of a full store since. |
| `StoreOrigins.KeptIsThere` | peeroxide-dht/src/persistent.rs:282-301 | Conversely such a put is still there, with its value and time. |
| `StoreOrigins.RepliesExact` | peeroxide-dht/src/persistent.rs:626-756 | A put is answered with silence, code 16, code 17 or a confirmation exactly as it is unsigned or untokened, reuses the live sequence number, is below it, or is stored; a get that names its target is always answered. |
| `StoreRuns.SizesKeptIff` | peeroxide-dht/src/persistent.rs:282-301 | Every run keeps the immutable store within its size limit if and only if the limit is at least one; the mutable one if and only if the limit is at least one or no put is ever accepted. |
| `StoreRuns.PutReplaces` | peeroxide-dht/src/persistent.rs:626-682 | A put changes a live record that it leaves in place only to a strictly larger sequence number. |
| `StoreRuns.SeqNeverDrops` | peeroxide-dht/src/persistent.rs:626-682 | While a record stays live, its sequence number never goes down, over any run. |
| `StoreSpec.RecordRoundTrip` | peeroxide-dht/src/hyperdht_messages.rs:360-384 | A stored record, followed by any bytes, decodes to itself and leaves them. |
| `Store.LruCache.constructor` | peeroxide-dht/src/persistent.rs:264-270 | An empty cache. |
| `Store.LruCache.Lookup` | peeroxide-dht/src/persistent.rs:273-279 | Finds exactly what is there and younger than the maximal age. |
| `Store.LruCache.Insert` | peeroxide-dht/src/persistent.rs:282-301 | At capacity an oldest entry goes first, then the value is stored. |
| `Store.Persistent.OnMutablePut` | peeroxide-dht/src/persistent.rs:626-682 | The checks in order, the sequence errors, and the store. |
| `Store.Persistent.OnMutableGet` | peeroxide-dht/src/persistent.rs:688-715 | Returns the live record if it is recent enough, else nothing. |
| `Store.Persistent.OnImmutablePut` | peeroxide-dht/src/persistent.rs:720-743 | Stores the value only under its hash. |
| `Store.Persistent.OnImmutableGet` | peeroxide-dht/src/persistent.rs:748-756 | Returns the live value. |
| `Records.RecordCache.constructor` | peeroxide-dht/src/persistent.rs:119-127 | An empty cache. |
| `Records.RecordCache.AddRecord` | peeroxide-dht/src/persistent.rs:129-169 | A known key is replaced in place; otherwise room is made in the topic and then in the cache, and the record appended. |
| `Records.RecordCache.EvictOldest` | peeroxide-dht/src/persistent.rs:215-246 | Drops an entry no newer than any other, and an emptied topic. |
| `Records.RecordCache.OldestTopic` | peeroxide-dht/src/persistent.rs:215-246 | The loop finds a topic that holds an oldest entry, if there is any entry. |
| `Records.RecordCache.RemoveRecord` | peeroxide-dht/src/persistent.rs:172-182 | The retain loop removes exactly the entries of the key. |
| `Records.RecordCache.GetRecords` | peeroxide-dht/src/persistent.rs:185-199 | Drops the expired entries of the topic and returns the first live ones, in order. |
| `EvictionRuns.TicksOrdered` | peeroxide-dht/src/rpc.rs:1568-1620 | In every run seen tick <= pinged tick <= tick for every node in the table and every node that waits for a full bucket. |
| `EvictionRuns.OwnIdAbsent` | peeroxide-dht/src/rpc.rs:1568-1742 | In every run, across the change of our id at the end of the bootstrap, our own id is not in the table, not waiting, and not about to replace a node that is being pinged. |
| `EvictionRuns.AnswererStays` | peeroxide-dht/src/rpc.rs:1055-1113 | In every run a table node that answers its check or reping with its validated id is still in the table once the answer is handled. |
| `EvictionRuns.EvictedOnly` | peeroxide-dht/src/rpc.rs:786-1175 | In every run a node leaves the table only by a ping about it that timed out, by a response to a ping about it that did not come from it, or by the new id at the end of the bootstrap. |
| `EvictionLaws.TableExact` | peeroxide-dht/src/rpc.rs:793-1175 | In every run the next step takes a node out of the table if and only if a ping about it times out, a response not from it decides a ping about it since which it was not seen, or our new id leaves no room for it, and no newcomer puts it back; and puts one in if and only if a packet with its validated id finds room, or it is a reping's newcomer, its rival is gone, unseen or silent, and there is room. |
| `EvictionLaws.CheckDecided` | peeroxide-dht/src/rpc.rs:1099-1113 | In every run an answered check drops its node if and only if the answer is not from the node and the node was not seen since the step that sent the ping. |
| `EvictionLaws.NewcomerPlaced` | peeroxide-dht/src/rpc.rs:1075-1175 | A decided ping is forgotten; the newcomer of a reping decided against its node is in the table with its ticks if it is known or there is room, and waits last if not. |
| `EvictionLaws.PingOrigins` | peeroxide-dht/src/rpc.rs:935-1262 | In every run each ping to be decided was sent by a step: a check by a ping or down hint, a reping by a packet that found no room, after the bootstrap and with fewer than three counted, for a waiting node; its node was due, and its last-seen tick is the one of then. |
| `EvictionLaws.CrowdedRound` | peeroxide-dht/src/rpc.rs:1622-1706 | A new node without room waits last; after the bootstrap, below three repings, all waiting nodes are taken and a ping is recorded for each pick that is due, up to the first trusted one. |
| `EvictionLaws.TicksExact` | peeroxide-dht/src/rpc.rs:935-1620 | A packet marks its node as seen and pinged now; a due ping or hint marks its node as pinged now, and a hint is counted; other nodes are at most pinged. |
| `EvictionLaws.TickMoves` | peeroxide-dht/src/rpc.rs:1178-1195 | The tick moves on by one; after a sleep it jumps by more than 720 to the next multiple of eight. |
| `EvictionLaws.RepingsCounted` | peeroxide-dht/src/rpc.rs:1055-1175 | In every run in which requests get unused ids the counter of repings is the number of repings to be decided. |
| `Eviction.DhtNode.constructor` | peeroxide-dht/src/rpc.rs:1818-1844 | An empty table, nobody waiting, not bootstrapped. |
| `Eviction.DhtNode.HandleTick` | peeroxide-dht/src/rpc.rs:1178-1195 | The tick moves on by one, or after a sleep jumps to a later multiple of eight. |
| `Eviction.DhtNode.AddNodeFromNetwork` | peeroxide-dht/src/rpc.rs:1568-1620 | A known node is refreshed, a new one offered to the table and, if its bucket is full, the waiting nodes are looked at; our own id is ignored. |
| `Eviction.DhtNode.HandleBucketFull` | peeroxide-dht/src/rpc.rs:1622-1706 | Only after the bootstrap and below the limit of repings: takes all waiting nodes, and for each pings a node that was not pinged in this tick, stopping at one that is old and was seen lately. |
| `Eviction.DhtNode.HandleResponse` | peeroxide-dht/src/rpc.rs:793-862 | The sender is refreshed before the ping is decided. |
| `Eviction.DhtNode.StandaloneResponse` | peeroxide-dht/src/rpc.rs:1055-1113 | A check drops, a reping replaces, a node not seen since the ping was sent. |
| `Eviction.DhtNode.HandleTimeout` | peeroxide-dht/src/rpc.rs:1117-1175 | A check drops its node and a reping replaces it. |
| `Eviction.DhtNode.HandleDownHint` | peeroxide-dht/src/rpc.rs:935-996 | A hinted node is pinged unless it was in this tick. |
| `Eviction.DhtNode.PingSome` | peeroxide-dht/src/rpc.rs:1208-1262 | A table node is checked unless it was pinged in this tick. |
| `Eviction.DhtNode.PingNode` | peeroxide-dht/src/rpc.rs:1671-1702 | The node is marked as pinged now; the ping is recorded if its request was created. |
| `Eviction.DhtNode.MarkBootstrapped` | peeroxide-dht/src/rpc.rs:1726-1742 | Once: takes the new id, if any, and adds all nodes again under it. |
| `Eviction.DhtNode.Rebuild` | peeroxide-dht/src/routing_table.rs:228-252 | Nobody waits any more; every node but the one with our new id is added again or, without room, waits. |
| `Eviction.DhtNode.TryAdd` | peeroxide-dht/src/routing_table.rs:89-131 | A stored node is replaced; a new one needs room, and else waits. |

## Left out

- libudx transport and congestion control, sockets, tokio tasks, DNS, timers, lock poisoning: the
  model starts at the state machines above them.
- Real cryptography: BLAKE2b, Ed25519 and ChaCha20-Poly1305 are terms of a free algebra in the
  handshakes and arbitrary functions in the stores. Key lengths and HMAC padding have no meaning
  there, and the 64-bit nonce is unbounded.
- Command line, configuration, `connect`, the holepuncher, secret streams, socket pools: I/O
  orchestration.
- Query: counters are unbounded; the value, round-trip time and receiving address of a reply, the
  fields of a request that never change, and a down hint that cannot be encoded are not modelled.
  The order of the routing table is an input of the steps, and is the scan of `RoutingTable` in
  the class.
- QueryRuns.DownHintsExact: is about the hints that the query hands out; the node sends at most 50
  of them per tick and drops the rest.
- QueryRuns.QueryEnds: assumes k and concurrency of at least one, as do the other query theorems.
  With k zero the comparison with the last kept reply has no reply to read, and with concurrency
  zero nothing is ever sent.
- QueryRuns.QueryEnds: takes every request handed out as created; `QueryDispatch.QueryFinishesIff`
  is about those that are not.
- QueryRuns.QueryEnds: bounds the run by the number of addresses seen, since replies may name new
  addresses without end.
- Relay: `sweep_idle_sessions` and the activity clock, outbound channels and the messages on them.
- RelayRuns.RelayLimits: the active half of `unpair` is a step that any session can take at any
  time, which allows more interleavings than the program does.
- Mux.MuxState.HandleFrame: does not model close and reject frames and the recycling of ids; the
  pairing theorems are about runs without them.
- Mux.MuxState.CreateChannel: assumes fewer than 2^32 - 1 channels, where the 32-bit id overflows.
- Protocol names are byte strings; that they are UTF-8 is not modelled.
- RouterTable.LookupFinds: is about lookups no earlier than the collections before them, since
  time does not run backwards.
- Router: what the server's application answers to a handshake or a holepunch is an input.
- Io: tokens and secrets, the bytes of requests and replies, `clear` and `destroy`; that an
  address parses and that a message encodes are inputs.
- IoOrigins.FlushInOrder: assumes that no transaction id is in flight or queued twice, which 65536
  ids allow.
- Codecs of floating-point numbers, of 24, 40, 48 and 56 bits, of fixed-width signed numbers, and
  of strings and generic arrays. Text forms of addresses: an address is its bytes and a port.
- HyperMessages: these codecs are functions on byte strings, not writes through the cursor; the
  order of writes into the shared buffer is not captured there, and flags are arithmetic.
- Nat: automatic sampling, the notification of waiters, and `destroy`.
- Stores: lookup, announce, unannounce and find-peer handlers and their signature checks, and the
  bump and refresh caches. Which of equally old entries is evicted is an input.
- Store.Persistent.OnMutablePut: takes decoding, hash check and signature check as one function of
  the request.
- Eviction: whether a bucket has room, and which node is picked to be pinged, are inputs of the
  steps; samples of our address are, too.
- EvictionLaws.RepingsCounted: assumes that requests get ids that are not in use, and
  EvictionLaws.CheckDecided that a response's id is not given to a new ping.
- EvictionLaws.CrowdedRound: says which ping is recorded for a pick whose node and request id no
  other pick of the round has.
- Two requests of a query with the same content are created or not together (`QueryDispatch`).
