# WhatSpace: the store, carry and forward protocol

A Dafny model of WhatSpace's delay-tolerant messaging and proofs about it. Nodes keep Data bundles in a
capacity-bounded file, flood them to connected peers by anti-entropy, and retry. The destination keeps the Data,
answers with an acknowledgement (ACK), and the ACK travels back, deletes the Data on its way and stays behind as a
tombstone against its return.

The model has three layers, and the proofs use all three.

* **Storage.** `Store` says what each storage operation does to the list in `bundles.json`. `Storage` has the classes
  `StorageLayer` and `BundleManager` over a shared `Disk`; each method is proved to do what `Store` says. `Table` is an
  independent reference, one ordered map from ids to bundles, and any sequence of calls through any number of clones of
  one directory refines it. `Locks` models the same operations at the granularity of `STORAGE_IO_LOCK`, with
  interleaving threads, failing reads and writes, and crashes.
* **One node.** `NodeStep` gives what a call of the engine does to the node's store and what it sends, as a function of
  the answers of the outside world. `Engine` has the class `RoutingEngine` with the loops of the source, proved against
  `NodeStep`. `NodeFacts` proves what every call keeps, and exactly when a store takes a bundle in. `Sending` says,
  without the loops, exactly what is sent to whom and which status results. `AntiEntropy` proves what one exchange
  leaves in the peer's store, every copy taken through the receive guard and `route_bundle`. `Reception` links the frames
  of a connection to these calls: what was sent is received, in order, and no message is sent twice.
* **The network.** `Network` is a state machine: a map from nodes to stores, every message ever sent, one clock. Its
  steps are a CLI send, the arrival of a wire copy, a retry, dropping expired bundles, and time passing. `Network`
  proves an inductive invariant; `Runs`, `Flooding`, `Delivery` and `Journeys` prove the results over whole runs.

Beside them, `Model` holds bundles and expiry, `Wire` the protobuf conversions and UUID text, `Frames` the framing of a
peer connection, and `Registry` the registry server's list of peers.

## Assumptions

* The clock is one global integer count of nanosecond ticks. It does not run backwards and stands still within a step.
* In the network model a step of a node is atomic and disk accesses succeed. `Locks` drops both. The classes take a
  disk whose writes all succeed, all fail, or fare each on its own, and state the result of each.
* Random ids are fresh. Every bundle comes from `Bundle::new` (always Data, as in the CLI's Send) or from `new_ack`.
* Source and destination of a Data bundle differ.
* A message, once sent, may arrive at any later time, any number of times, or never. For the safety results it may even
  reach another node than the one it was sent to (an address in the registry may be stale), and a peer's summary
  vector, the registry's answer and the success of a send are arbitrary. `Delivery` and `AntiEntropy` use the peers'
  real stores as vectors; in `Delivery` there is one registry, a node receives only what was sent to it, and whether
  sends report success stays open.
* A Data bundle is *live* while its wire copy, whose timestamp the wire cuts to whole seconds, has not expired.

## Where the code and its comments disagree

The model follows the code.

* Comments call the ACK id deterministic (src/routing/engine.rs:134, src/routing/bundleManager.rs:77); it is a fresh
  random id (src/routing/ack.rs:13). No single check enforces one ACK per Data bundle. It follows from the receive
  guard, the destination keeping its Data, ACKs outliving Data, and capacity, and is proved as `Runs.OneAckPerData`.
* src/routing/engine.rs:208 calls `get_connected_peers_from_server` without the registry address; it is modelled as
  `(&self.registry_address, &self.peers)`.
* src/routing/engine.rs:196-197 sets `sent_to_peer` whether or not the send succeeded, so InTransit does not mean that
  a peer confirmed the bundle. `Sending.RouteSetsStatus` states what it does mean, `Sending.InTransitUnconfirmed` gives
  the case in which every send fails.

## Properties that hold only under a condition

* The wire copy of an ACK outlives the *uncut* Data bundle that its source keeps if and only if cutting did not move the
  ACK's stamp before the Data's (`Model.WireAckOutlivesWholeDataIff`, with the concrete failure
  `Model.WireAckCanExpireFirst`). Against the Data's wire copy the order always holds (`Model.TombstoneOrder`), which is
  why the network results speak of live Data.
* A stream of frames is received as sent if and only if every payload's length fits 32 bits and does not begin with the
  byte of `{` (`Frames.StreamRoundTrip`, failure `Frames.BraceLengthIsLost`).
* A bundle survives the wire if and only if it is Data or an ACK (`Wire.WireRoundTrip`).
* With room on the way, walking the Data along a path ends with the ACK at the destination if and only if the destination
  has two free slots and not the Data, or has Data and ACK already (`Delivery.DeliveryIff`). With one free slot it ends
  with the Data alone (`Delivery.OneFreeSlotStarves`), and then no ACK for it ever exists while it is live
  (`Delivery.StarvedForever`). `Delivery.DeliveryOutcome` gives the end of the walk for every destination.
* An exchange, with room, fresh ids and nothing expiring meanwhile, leaves the peer with its own ids and those of the
  other node's retryable bundles if and only if no offered ACK names a bundle of the peer, no ACK of the peer names
  offered Data, and no offered Data is at its destination (`AntiEntropy.UnionIff`, failure
  `AntiEntropy.AckBreaksUnion`). It ends with all ids of both nodes if and only if moreover it already knew every bundle
  that is never offered, such as Delivered ones (`AntiEntropy.FullUnionIff`, failure
  `AntiEntropy.DeliveredStaysUnknown`). `AntiEntropy.ExchangeIds` gives the ids under those general conditions alone, and
  `AntiEntropy.SecondExchange` what a second exchange offers.
* Whatever threads interleave at lock granularity, as long as no read fails, each rename replaces the file by what its
  operation makes of the file that its thread last read or wrote (`Locks.RenameWritesLastSeen`). So the file is the
  result of the completed operations run one after another, if between another thread's rename and its own every thread
  reads the file again (`Locks.RereadingIsSerial`). The code does not enforce such a schedule: from every file to which either of
  two different bundles can be added, two saves can interleave so that both report success and one is lost
  (`Locks.UpdatesCanBeLost`). A read that fails counts as an empty file, and the save that follows replaces everything
  (`Locks.FailedReadLosesFile`).
* The registry shows a node as connected if and only if it was registered and no connection whose last registration it
  was has closed since (`Registry.ShownConnectedIff`). So the late close of an old connection hides a node that
  registered again (`Registry.LateCloseDisconnects`), and a node stays shown after the close of its connection if that
  connection registered another one later (`Registry.EarlierRegistrationStays`).

## Model

| member | source | states |
|---|---|---|
| Model.ExpiryInSeconds | src/routing/model.rs:91-96 | expiry in plain numbers: for a TTL below 2^63, from (TTL + 1) seconds after the timestamp on; for a larger one the cast wraps to a negative age, so a bundle stamped in the past is expired at once |
| Model.CutToSeconds | src/network/protobuf.rs:41 | the wire's timestamp is a whole second, less than one second back |
| Model.TombstoneOrder | src/routing/ack.rs:11-27 | for every u64 TTL, wrapping casts included, no ACK for a Data bundle, whole or cut by the wire, has expired while that Data is live |
| Model.OutlivesIff | src/routing/model.rs:91-96 | with equal TTLs one bundle outlives another at every clock reading iff it is not stamped earlier |
| Model.WireAckOutlivesWholeDataIff | src/network/protobuf.rs:41 | the exact condition under which the cut ACK outlives the uncut Data |
| Model.WireAckCanExpireFirst | src/network/protobuf.rs:41 | a concrete Data and ACK for which the condition fails and the ACK expires first |
| Store.SaveKeeps | src/storage/storage.rs:208-242 | a save keeps distinct ids and capacity, and reports success iff it added something to the cleaned-up list |
| Store.FirstMatch | src/storage/storage.rs:245-248 | find gives and update overwrites the first bundle with the id, and nothing else |
| Store.AckDisplacesData | src/routing/bundleManager.rs:63-82 | even in a full store an ACK for stored Data ends with the Data gone, exactly one ACK, last in the list, and every other unexpired bundle unchanged and in order |
| Store.DropOneByOneIsCleanup | src/routing/scf.rs:11-22 | deleting the expired ids one at a time leaves the same list as the single-pass cleanup |
| Table.SaveRefines | src/storage/storage.rs:208-242 | save_bundle is insertion into the ordered table, with the same result |
| Table.UpdateRefines | src/storage/storage.rs:318-339 | update_bundle overwrites one entry of the table in place, with the same result |
| Table.DeleteRefines | src/storage/storage.rs:267-287 | delete_bundle removes one entry of the table, with the same result |
| Table.CleanupRefines | src/storage/storage.rs:291-315 | cleanup removes the expired entries and reports their number |
| Table.UpsertRefines | src/routing/bundleManager.rs:40-46 | upsert_bundle overwrites a known entry of the table and inserts an unknown one |
| Table.AbsorbRefines | src/routing/bundleManager.rs:63-82 | handle_incoming_ack removes the acknowledged entry, then inserts the ACK unless the table has it or another ACK for the Data |
| Table.ViewRoundTrip | src/storage/storage.rs:251-254 | the table of a list with distinct ids loses nothing: its rows are the list |
| Table.Refines | src/storage/storage.rs:208-339 | every storage operation on the list is the table's operation with the same reply, and keeps ids distinct |
| Storage.StorageLayer.CleanupExpiredBundles | src/storage/storage.rs:291-315 | memory becomes the unexpired bundles of the file, and so does the file unless its write fails; the number removed |
| Storage.StorageLayer.SaveBundle | src/storage/storage.rs:208-242 | file and result of a save whatever the stale copy in memory; a true result means the full effect, even if the write of the cleanup failed; on a false result the file is as before or cleaned up |
| Storage.StorageLayer.GetBundle | src/storage/storage.rs:245-248 | the first bundle with the id in the file, not in the stale copy |
| Storage.StorageLayer.DeleteBundle | src/storage/storage.rs:267-287 | file and result of a delete; a failed write changes no file and reports false |
| Storage.StorageLayer.UpdateBundle | src/storage/storage.rs:318-339 | file and result of an update, blocked for acknowledged Data; a failed write changes no file and reports false |
| Storage.StorageLayer.SaveToFile | src/storage/storage.rs:173-204 | the file becomes the copy in memory or stays whole as it was |
| Storage.ServeThroughClones | src/storage/storage.rs:96-98 | any calls over any clones of one directory, with any stale copies, give the replies and the file of one table; if writes fail, those of one table in which each failed call changes nothing but perhaps drops expired entries |
| Storage.BundleManager.UpsertBundle | src/routing/bundleManager.rs:40-46 | updates a known id, saves an unknown one |
| Storage.BundleManager.HandleIncomingAck | src/routing/bundleManager.rs:63-82 | the detour through status Delivered leaves no trace: the Data goes, the ACK is saved unless one is known; nothing happens for other kinds; whichever writes fail, ids stay distinct and within capacity and a reported ACK is stored |
| Storage.DeleteAfterUpdate | src/routing/bundleManager.rs:66-70 | overwriting a bundle just before deleting its id changes nothing |
| Locks.FileIsAlwaysWellFormed | src/storage/storage.rs:173-204 | for any interleaving of any threads, failing reads and writes, and crashes, the file holds distinct ids and at most `capacity` bundles |
| Locks.EndedCall | src/storage/storage.rs:208-339 | over any run, what a call reports is true: success means it renamed a file that carries its own operation (or a cleanup saw nothing expired), failure means the write for its operation failed or it refused on what it last saw |
| Locks.AloneIsWhole | src/storage/storage.rs:208-339 | a call that runs alone without failures leaves the file, and for save, update and delete gives the result, of the whole operation |
| Locks.RenameWritesLastSeen | src/storage/storage.rs:173-204 | in any run without failing reads, each rename writes the operation's effect on the file as its thread last read or last wrote it, whatever others did since |
| Locks.RereadingIsSerial | src/storage/storage.rs:208-339 | in every run whose schedule makes a thread read the file again between another thread's rename and its own, and in which no read fails, the file is the result of the completed operations run one after another, with all other interleavings, failing writes and crashes allowed |
| Locks.UndisturbedIsSerial | src/storage/storage.rs:208-339 | the same for a run in which each write found the file it was computed from |
| Locks.UpdatesCanBeLost | src/storage/storage.rs:91-98 | from any file, a run of two admissible saves that interleave, both report success, and leave only the second bundle; its schedule breaks the condition above |
| Locks.FailedReadLosesFile | src/storage/storage.rs:79-87 | from any file, a save whose reads fail reports success and leaves its own bundle alone |
| Wire.UuidRoundTrip | src/network/protobuf.rs:54 | parsing the 36-character text of a UUID gives it back |
| Wire.UuidTextDigits | src/network/protobuf.rs:25 | the text position by position: lower-case hexadecimal digits, highest first, and hyphens after 8, 12, 16 and 20 of them |
| Wire.MessageOf | src/network/protobuf.rs:24-47 | each field of a bundle's message, with the enum numbers of the protocol: an ACK has kind 1, every message status 0 |
| Wire.BundleOf | src/network/protobuf.rs:51-89 | any message: kind 1 decodes to an ACK and every other kind to Data, always Pending; no UUID text becomes the nil UUID, ports lose their high bits |
| Wire.WireRoundTrip | src/network/protobuf.rs:51-90 | a bundle comes back Pending and cut to whole seconds, otherwise unchanged, iff it is Data or an ACK; the control kinds come back as Data |
| Wire.CarryFixes | src/network/protobuf.rs:9-49 | the fixed points of the wire, both directions |
| Wire.CarryIsIdempotent | src/network/protobuf.rs:9-90 | a second trip over the wire changes nothing |
| Wire.CarryExpiry | src/network/protobuf.rs:41 | the copy expires never later and less than one second earlier than the original |
| Frames.HeadOfFrame | src/network/client.rs:145-149 | a framable payload is read back whole with the rest of the stream left; any other is taken for a control message or read back wrong |
| Frames.ReceivePayload | src/network/client.rs:163-178 | the two exact reads yield the next frame's payload and the rest, or fail exactly on a truncated stream |
| Frames.StreamRoundTrip | src/network/client.rs:270-314 | the receive loop over the frames of a list recovers that list and stops at the end iff every payload is framable |
| Frames.BraceLengthIsLost | src/network/client.rs:287-290 | a payload whose length begins with the brace byte is lost |
| Registry.ConnectedPeers | src/network/server.rs:91-104 | exactly the connected records among the requested ids, everyone for an empty request |
| Registry.ConnectedPeersInOrder | src/network/server.rs:93-101 | the answer for a longer registry is the answers for its parts in order |
| Registry.ConnectedPeersOfOne | src/network/server.rs:95-99 | and for one record that record or nothing, so order and multiplicity are the registry's own |
| Registry.Server.HandleRequest | src/network/server.rs:129-160 | one request on any registry: the record registered, or the answer from the directory |
| Registry.Server.HandleClient | src/network/server.rs:106-173 | a connection that is not interleaved with others: every request is answered from the directory its predecessors left; on close the node last registered is disconnected |
| Registry.ShownConnectedIff | src/network/server.rs:106-173 | over any interleaving of any connections, a node is shown as connected iff it was registered and no connection whose last registration it was has closed since |
| Registry.EarlierRegistrationStays | src/network/server.rs:164-172 | a node stays connected when its connection closes after registering another node |
| Registry.LateCloseDisconnects | src/network/server.rs:164-172 | a node registered again on a second connection is disconnected by the close of the first |
| Registry.OnlyTheLastRegistrationCloses | src/network/server.rs:164-172 | the close of a connection not interleaved with others disconnects the last node registered on it and no other that it registered |
| Engine.RoutingEngine.AntiEntropy | src/routing/engine.rs:33-41 | the loop returns, in order, the local bundles whose ids the peer lacks |
| Engine.RoutingEngine.SendWhereMissing | src/routing/engine.rs:83-100 | an ACK goes to every peer that lacks it; the count is positive iff some send succeeded |
| Engine.RoutingEngine.RouteBundle | src/routing/engine.rs:57-205 | file, returned bundle and messages of all four branches, with writes that succeed and with writes that fail; ids distinct and within capacity whichever writes fail |
| Engine.RoutingEngine.RouteAckBundle | src/routing/engine.rs:58-107 | the ACK branch, with forwarding of first-seen ACKs only |
| Engine.RoutingEngine.DeliverHere | src/routing/engine.rs:116-170 | the destination branch: Data kept as Delivered, one ACK created and flooded |
| Engine.RoutingEngine.Relay | src/routing/engine.rs:172-204 | the relay branch: save, then flood everything Pending |
| Engine.RoutingEngine.RetryUnsyncedBundles | src/routing/engine.rs:207-258 | the retry loops flood what peers lack and mark the confirmed bundles InTransit |
| Engine.RoutingEngine.DropExpiredBundles | src/routing/scf.rs:11-22 | deletes the expired ids one at a time |
| Engine.RoutingEngine.HandlePeerToPeer | src/network/client.rs:270-314 | the connection loop has the effect of receiving, one after another, exactly the decodable bundles framed in the stream; when no write succeeds, the file stays and the messages are those of the calls one by one |
| Engine.ReceiveBundle | src/network/client.rs:163-195 | one decoded bundle and the rest of the stream, or nothing more to receive |
| Reception.ReceivesWhatWasSent | src/network/client.rs:163-195 | on the frames of serialized Data and ACK bundles the connection loop has the effect of receiving their wire copies, in order |
| Reception.StopsAtTheFirstFailure | src/network/client.rs:292-311 | on any payloads each one that decodes gives its bundle, up to the first that does not |
| Reception.ReceiveAllSplits | src/network/client.rs:271-313 | receiving a list and then another is receiving both, store and messages in order |
| Reception.ReceiveAllOfOne | src/network/client.rs:294-306 | one received bundle is ignored if its id is stored and routed otherwise, with the messages of that call |
| Reception.FloodInOrder | src/routing/engine.rs:181-199 | peers are served one after the other, in the registry's order |
| Reception.FloodOfOne | src/routing/engine.rs:187-198 | one peer is offered what its answer lacks, in order and as often as it is listed |
| Reception.RouteSendsOnce | src/routing/engine.rs:57-205 | with one record per node id in the registry, route_bundle sends no node the same bundle twice |
| Reception.RetrySendsOnce | src/routing/engine.rs:230-250 | nor does a retry |
| NodeFacts.RouteIsLawful | src/routing/engine.rs:57-205 | whatever the world answers, routing keeps the store's invariant, invents no bundle, loses nothing unexpired but acknowledged Data, and mints an ACK only for Data delivered here |
| NodeFacts.DataAdmission | src/routing/engine.rs:128-172 | received Data is stored iff no ACK blocks it and a slot is free; an ACK is minted iff a second slot is free too, or an ACK already kept the Data out |
| NodeFacts.AckAdmission | src/routing/engine.rs:70-81 | a first ACK is stored iff it displaces its Data or a slot is free |
| NodeFacts.RetryIsLawful | src/routing/engine.rs:207-258 | a retry keeps the store's invariant and changes statuses only |
| NodeFacts.MarkAllPointwise | src/routing/engine.rs:252-257 | marking one by one equals marking all listed unblocked bundles in place at once |
| NodeFacts.SentIdsMembers | src/routing/engine.rs:230-250 | the ids recorded are exactly those some reachable peer lacked and confirmed |
| NodeFacts.FloodMembers | src/routing/engine.rs:181-199 | every peer is offered exactly the bundles that its answer does not list, all of them if it does not answer |
| Sending.RouteSendsExactly | src/routing/engine.rs:83-199 | route_bundle sends a bundle to a node iff it has it to offer, the registry reports the node as a contact, and the node lacks it; what is on offer is given by the store before the call |
| Sending.RouteSetsStatus | src/routing/engine.rs:101-105 | the status the bundle comes back with and is stored with, in every branch |
| Sending.RouteStoresExactly | src/routing/engine.rs:57-205 | the whole store that routing leaves, in order, for every branch; in particular the minted ACK is InTransit iff some send of it reported success, and Pending otherwise |
| Sending.InTransitUnconfirmed | src/routing/engine.rs:196-204 | a relay marks and stores its bundle InTransit although every send failed |
| Sending.RetrySendsExactly | src/routing/engine.rs:230-250 | a retry sends a bundle to a node iff it is stored, Pending or InTransit, the node is connected, and its answer does not list the id or never came |
| Sending.RetryMarksExactly | src/routing/engine.rs:252-257 | after a retry exactly the bundles confirmed by some peer are InTransit, all else is unchanged and in place |
| AntiEntropy.RetrySendsTheOffer | src/routing/engine.rs:230-250 | a retry sends a peer it reaches exactly the retryable bundles that the peer's answer does not list |
| Delivery.RetryInTheRealWorld | src/routing/engine.rs:230-250 | when peers answer with their real ids, a retry sends a linked node exactly the Pending and InTransit bundles it does not hold |
| Delivery.RetryIsSilentIff | src/routing/engine.rs:230-250 | so it sends that node nothing iff the node holds all of them |
| AntiEntropy.ReceivesOffer | src/network/client.rs:292-306 | the peer's whole store after putting every copy through receive guard and routing: its own bundles in order without what offered ACKs name, then in order each copy it took, with the ACK it minted behind Data that is home |
| AntiEntropy.ExchangeIds | src/network/client.rs:292-306 | the ids afterwards: the peer's without displaced Data, the offered ones without Data it has ACKs for, and the minted ACKs |
| AntiEntropy.UnionIff | src/network/client.rs:292-306 | the peer ends with its own ids and those of the other node's retryable bundles iff no offered ACK names a bundle of the peer, no ACK of the peer names offered Data, and no offered Data is home |
| AntiEntropy.FullUnionIff | src/network/client.rs:292-306 | it ends with all ids of both nodes iff moreover it knew every bundle that is not retryable |
| AntiEntropy.DeliveredStaysUnknown | src/routing/engine.rs:218-224 | the failing input: Delivered Data is never offered and stays unknown to the peer |
| AntiEntropy.AckBreaksUnion | src/routing/bundleManager.rs:63-82 | the failing input: the peer has the Data, the other side its ACK; only the ACK remains |
| AntiEntropy.AckBreaksUnionExample | src/routing/bundleManager.rs:63-82 | a concrete such exchange |
| AntiEntropy.SecondExchange | src/routing/engine.rs:33-41 | a second exchange offers, in order, exactly the Data the peer has ACKs for, so nothing iff there is none |
| AntiEntropy.ExchangeIsPossible | src/network/client.rs:292-306 | any two stores of a reachable state meet the conditions of these results, given room, live bundles and fresh ids |
| Network.StepKeepsInv | src/network/client.rs:292-306 | every step of the network keeps the global invariant |
| Network.RootKept | src/routing/engine.rs:128-143 | a destination drops neither live Data it acknowledged nor the ACK |
| Network.EventKeepsOneAck | src/routing/engine.rs:132-143 | no event creates a second ACK for a Data id |
| Network.NoAckWithoutData | src/routing/bundleManager.rs:63-82 | a destination that lacks live Data has no ACK for it |
| Runs.NoLiveBundleLost | src/routing/bundleManager.rs:63-82 | in every run, Data its source once stored is, while live, at its source or its destination, content intact |
| Runs.NoResurrection | src/storage/storage.rs:208-242 | in every run no node goes backwards with live Data through the phases unknown, stored, acknowledged |
| Runs.OneAckPerData | src/routing/engine.rs:128-143 | over a whole run all ACKs for one Data id, in any store or in flight at any time, have one id |
| Runs.OneAckPerStore | src/routing/engine.rs:72-74 | no store of a reachable state holds two ACKs for one Data id |
| Runs.AcksTellTheTruth | src/routing/ack.rs:11-27 | every ACK ever seen names Data its destination had stored as Delivered, with endpoints swapped and the same TTL |
| Runs.TombstoneExclusion | src/storage/storage.rs:321-324 | live or not, only a Data bundle's destination ever stores it beside an ACK for it |
| Runs.StatusAlwaysFits | src/routing/engine.rs:70-75 | stored bundles are Delivered exactly at their destination, never Expired, and never retried there; ids stay distinct and within capacity |
| Flooding.InsertAdvances | src/network/client.rs:294-296 | a bundle new to a store moves its Data id one phase forward there |
| Flooding.OneIdPays | src/routing/engine.rs:78-106 | the bundles a node gains in one step for one Data id are at most the phases it moves on |
| Flooding.InsertionsArePaid | src/routing/engine.rs:78-106 | over any stretch of a run without new or dying Data, the bundles inserted are paid for by the total of phases left |
| Flooding.FloodingDiesOut | src/routing/engine.rs:78-106 | hence in all at most two bundles are inserted per node and Data id |
| Flooding.FirstSeenOnce | src/routing/engine.rs:78-106 | over a whole run a node takes the branch that forwards a first-seen ACK at most once for each Data bundle while the Data is live |
| Flooding.KnownAckIsIgnored | src/network/client.rs:294-296 | a node that stored an ACK ignores every further copy while the Data is live: the whole network stays as it is |
| Delivery.OnlyLinksCarry | src/routing/engine.rs:207-258 | a retry puts nothing on the wire for a node that it is not linked to |
| Delivery.ForwardWalk | src/routing/engine.rs:207-258 | retry and receive hop by hop, each node receiving only what was sent to it, bring the Data, or an ACK already ahead of it, to the destination, which ends with both |
| Delivery.BackWalk | src/routing/engine.rs:207-258 | the same walk brings the ACK back to the source and leaves it at every node on the way |
| Delivery.DeliveryAlongAPath | src/routing/engine.rs:207-258 | on any path with room and links both ways, the round trip ends with Data Delivered at the destination, ACK Delivered at the source, and the Data gone and the ACK stored at the source and every relay, whichever sends report success |
| Delivery.DeliveryInEveryRun | src/routing/engine.rs:207-258 | and so from every state of every run |
| Delivery.DeliveryExample | src/routing/engine.rs:207-258 | a concrete run of two nodes whose last state meets the conditions of delivery |
| Journeys.JourneyThere | src/routing/engine.rs:207-258 | in any run that contains, in order, a retry and an arrival for each link of a path, with any steps of any nodes between them and each node ready when the Data arrives, Data and ACK end at the destination |
| Journeys.JourneyBack | src/routing/engine.rs:207-258 | likewise the ACK along any path to the source: the Data is acknowledged, and the source and every relay of the path keep just the ACK |
| Delivery.SendStoresMessage | src/cli/handler.rs:184-215 | a CLI send issues a bundle with the given message, TTL and endpoints and the current time; with a free slot the source stores it |
| Delivery.DeliversTheMessage | src/cli/handler.rs:184-215 | in any run, once a sent bundle is acknowledged, its destination holds exactly the message that was sent, as Delivered |
| Delivery.StarvedForever | src/routing/engine.rs:135-143 | Data stored at a destination without room for the ACK is never acknowledged while live, in any run |
| Delivery.DeliveryOutcome | src/routing/engine.rs:128-143 | the phase in which a forward walk with room on the way leaves any destination: Data and ACK, Data alone, or neither, by its free slots and what it held |
| Delivery.DeliveryIff | src/routing/engine.rs:128-143 | that walk ends with the ACK at the destination iff it had two free slots and not the Data, or had both already |
| Delivery.OneFreeSlotStarves | src/routing/engine.rs:135-143 | a destination with one free slot ends with the Data alone |

## Left out

- Engine.RoutingEngine.RouteBundle: when some writes of one call succeed and others fail, only distinct ids and capacity are stated, not which bundles are left; the same holds for RouteAckBundle, DeliverHere, Relay, RetryUnsyncedBundles and DropExpiredBundles.
- Engine.RoutingEngine.HandlePeerToPeer: stops at a `{`; answering JSON control requests on the same stream (`respond_peer_sv`, one unframed 4096-byte read) is not modelled.
- Storage.StorageLayer.SaveBundle: a read that fails, which the code takes for an empty file, is modelled only in `Locks`.
- Storage.BundleManager.HandleIncomingAck: when some of its writes succeed and others fail, only distinct ids, capacity and that a reported ACK is stored are stated, not which file results.
- AntiEntropy.ReceivesOffer: assumes room for everything offered and that nothing at the peer is expired or expires meanwhile; expired bundles would leave with the first save. `ExchangeIds`, `UnionIff`, `FullUnionIff` and `SecondExchange` rest on it.
- Locks.UndisturbedIsSerial: its condition is the history of the run, not the schedule; `Locks.RereadingIsSerial` has the condition on the schedule.
- Locks.FileIsAlwaysWellFormed: the tombstone, status and no-loss results are not claimed here, because read-modify-write is not atomic and they do not hold; the lock is per process, so several processes on one directory are not covered.
- Registry.OnlyTheLastRegistrationCloses: about one connection alone; `Registry.ShownConnectedIff` covers interleaved ones.
- Registry.Server.HandleClient: the connection's loop is stated without interference; interleaved connections are covered request by request (`Registry.ShownConnectedIff`). Invalid request JSON and a poisoned lock, which are answered with an error, are not modelled.
- Wire.UuidRoundTrip: the parser accepts only the 36-character form; the other spellings the uuid crate accepts are not modelled.
- TCP sockets, connection retries and timeouts, threads, the Tokio runtime, logging and process exit: a send adds to the set of sent copies, a query is an arbitrary answer.
- serde JSON and the protobuf byte encoding: decoding is a parameter of the receive loop; entries of `bundles.json` that do not parse are not modelled.
- chrono's range limits: timestamps are unbounded integers.
- `Node.routing_engine`: a back-pointer that is never serialized.
- `RequestSV` and `SummaryVector` as stored bundles: nothing creates them; `Wire.WireRoundTrip` says what the wire would do to them.
- ACKs that could not be stored: their ids are discarded and not recorded as taken.
- `save_ack_if_new_for_data`: it has no caller.
- `get_bundles_by_node`: reads the stale copy in memory and has no caller in the protocol.
- Whether a node that the registry reports as connected is really up.
- CLI parsing and interactive mode: they only choose which of the modelled calls to make.
- Adding and removing peers, and `verify_unique_name`: the peer list is a field that every result leaves arbitrary, and names play no part in routing.
- `disconnect_server`: it ends the process.
