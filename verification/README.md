# KnotRoute overlay: a verified model

KnotRoute is a peer-to-peer overlay. Nodes flood sequenced link-state announcements, compute routes,
forward packets hop by hop, build onion circuits, carry encrypted byte streams, and keep signed
service descriptors on the directory nodes nearest to a service. This project models that core and
proves what it is for. One module per file; `dafny verify dfyconfig.toml` checks all of it.

## How it is put together

- **Routing.** `NodeId`, `Sorting`, `Paths` and `Router` prove the search of the router against one
  definition, the least shortest walk. `Flooding` is the link-state protocol as a state machine;
  `FloodingInvariant`, `FloodingSteps` and `FloodingTermination` prove its invariant over every run
  and its end; `ClockSkew` says exactly when it holds; `Settling` that the protocol comes to rest, and
  `Quiescence`, `Forwarding` and `Convergence` carry that to equal databases, loop-free delivery and
  equal replica lists. `OverlayNode` is the node as a class whose methods are those steps.
  `SimultaneousOpen` is the choice between duplicate connections.
- **Circuits.** `Onion` and `Circuit` model telescopic circuits; `CircuitInvariant`, `CircuitSteps` and
  `CircuitSafety` prove them and `CircuitProgress` that they come to rest; `CircuitEndpoints` and
  `CircuitStream` are the two ends and the byte stream on top as classes; `CircuitPath` chooses the path.
- **Streams.** `Rendezvous` refines a plain byte pipe in each direction, from the keys of two ends;
  `DirectStream` does so over a hostile network; `OpenHandshake` is how such a stream is opened; `Crypto` holds key derivation, nonces and HKDF.
- **Directory, beacon, formats.** `Directory`, `Revisions`, `TokenBucket`, `Wire`, `Base32`, `Text`,
  `Naming`.

Operations that change state are classes and methods with loops; each is proved equal to a
specification function, and the theorems over whole runs are about those functions. Invariants are
predicates; constants such as `INVARIANT` or `KEEPS` are the same predicates as values, so that a
lemma can say of a step that it keeps the whole.

## What turned out false, and when it is true

- Flooding informs everybody exactly while no two clocks of the network are more than 300 seconds
  apart. Connections only compare their two ends, so nodes two connections apart may differ by more; the
  far one then refuses what is passed on to it as coming from the future, and it is not sent again before
  the origin's next announcement (`ClockSkew.InformedExactlyInStep`).
- A direct stream delivers a prefix of what was read exactly while fewer than 2^64 chunks were sent;
  then the counter has wrapped and a replay of the first packet is taken
  (`DirectStream.SafeExactlyBeforeWrap`).
- Of several connections between two nodes one survives every schedule exactly if the smaller ID
  dialled one, or there is only one (`SimultaneousOpen.AgreeExactlyWhenFavoured`).
- Data always meets a registered stream, but not always the session it was sealed for: an opening
  packet that is repeated after a close starts a second one. It always would exactly if the guard of
  `handleOpen` looked at everything ever registered (`OpenHandshake.SessionsMatchExactlyWhenStrict`).
- Evicting idle rate records goes unnoticed exactly if ten minutes fill a bucket
  (`TokenBucket.UnnoticedExactlyWhenFull`).
- A replica's revisions never decrease exactly if descriptors expire in revision order
  (`Revisions.NeverRollsBackExactlyWhen`); if it may be told to forget, exactly if lower revisions are
  gone before higher ones can be taken (`Revisions.NeverTakesOlderExactlyWhen`).
- Published revisions increase exactly while the 64-bit counter has room for the attempts
  (`Revisions.SafeExactlyWithRoom`).

## Assumptions

- AES-GCM, Ed25519, SHA-256 and X25519 are ideal: what was sealed opens under the same key, number
  and data and nothing else does; signatures are an origin; the key agreement commutes (section 2 of
  RFC 5116, sections 2.2 and 2.3 of RFC 5869). Random identifiers do not collide.
- Accepting an announcement and passing it on is one atomic step. The program stores it under one lock
  and reads its peers under another (`internal/overlay/node.go:484-490`); a peer that registers in between
  is handed the database, which has it already.
- Announcing is one atomic step. The program takes the sequence number before it reads its peers and
  stores its own announcement unconditionally, so two concurrent announcements may leave the older
  one stored locally until the next periodic one.
- No process restarts within a flooding run, because sequence numbers start again at zero. All
  announcements have one lifetime. Clocks go forward and lie within a bound `skew` of each other. The
  directory's theorems have one clock for all nodes.
- Circuit links keep order and lose nothing, and a relay has one source of reverse cells at a time.

## Model

| member | source | states |
|---|---|---|
| `NodeId.CompareIsNumericOrder` | internal/nodeid/nodeid.go:81-91 | the byte-by-byte comparison is exactly `<` on the numbers the bytes spell, and equality exactly equality |
| `NodeId.FromBytes` | internal/nodeid/nodeid.go:93-100 | every 32 bytes are the identifier that spells them: identifiers and byte strings correspond one to one |
| `Router.Compute` | internal/router/router.go:19-62 | the sorted search returns the table the database determines: one route per node reachable over mutually advertised edges, over the lexicographically least shortest walk |
| `Router.CollectAdvertised` | internal/router/router.go:22-31 | the advertised sets without malformed entries and self-links, whatever the iteration order |
| `Router.BuildAdjacency` | internal/router/router.go:32-41 | for each node exactly its mutual neighbours, strictly ascending |
| `Router.Expand` | internal/router/router.go:48-59 | one queue step keeps the search invariant: every path found so far is least, the queue is ordered, nothing nearer is missing |
| `Router.NewPathIsLeast` | internal/router/router.go:48-55 | a first-found path is the least shortest walk to its end |
| `Router.NewPathIsLast` | internal/router/router.go:48-56 | each newly found path comes after all paths found before, so the queue stays sorted |
| `Router.RoutesAreDetermined` | internal/router/router.go:43-61 | two tables of one database are equal: map iteration order cannot matter |
| `Paths.LeastWalkIsUnique` | internal/router/router.go:43-61 | there is one lexicographically least shortest walk |
| `Paths.LeastWalkIsSimple` | internal/router/router.go:43-61 | it visits no node twice |
| `Paths.LeastWalkTail` | internal/router/router.go:43-61 | its tail is the least walk from its second node, so hop-by-hop forwarding follows it |
| `Paths.WalkReverses` | internal/router/router.go:32-38 | mutual edges make every walk a walk back |
| `FloodingSteps.ReachableKeeps` | internal/overlay/node.go:395-520 | flooding invariant in every reachable state of a network whose clocks agree within 300 seconds: for every live registered link u-v and everything u stores, v stores something as new, or it is on its way, or the database hand-over is still due; and, whatever the clocks, what it needs (genuine announcements, own newest stored) |
| `ClockSkew.InformedExactlyInStep` | internal/overlay/peer.go:105-108 | the flooding invariant holds in all runs if and only if no two clocks of the whole network differ by more than 300 seconds; that each connection compares its two ends is not enough |
| `ClockSkew.NeighbourIsLost` | internal/protocol/control.go:89-101 | for every larger skew: three nodes in a row whose neighbours accept each other, and an announcement that the far one refuses as future, so that nothing brings it there any more |
| `FloodingSteps.StepKeeps` | internal/overlay/node.go:395-565 | each single step (connect, register, sync, emit, deliver, close, unregister, tick, expire) keeps that invariant |
| `FloodingSteps.EmitKeeps` | internal/overlay/node.go:444-464 | an announcement to all peers keeps it |
| `FloodingSteps.AcceptKeeps` | internal/overlay/node.go:484-490 | storing a newer announcement and passing it to every peer but its source keeps it |
| `FloodingSteps.RefuseKeeps` | internal/overlay/node.go:471-483 | a refused announcement was already covered, so dropping the frame keeps it |
| `FloodingSteps.SyncKeeps` | internal/overlay/node.go:493-504 | handing a new peer the whole database establishes it for the new link |
| `FloodingSteps.RegisterKeeps` | internal/overlay/node.go:395-413 | registering, and replacing a duplicate, keeps it |
| `FloodingSteps.ExpireDropsExactlyExpired` | internal/overlay/node.go:549-565 | sweeping leaves a node no announcement of others that has expired on its clock, takes nothing else and changes nothing else |
| `FloodingSteps.NeverAcceptsOlder` | internal/overlay/node.go:549-565 | once stored, an announcement or an older one of its origin is never accepted again in any later state, even after the copy expired and was deleted, whatever the clocks |
| `FloodingInvariant.OlderExpiresFirst` | internal/protocol/control.go:58-60 | with one lifetime and forward clocks a lower sequence number expires no later |
| `FloodingTermination.DeliveryShrinksWork` | internal/overlay/node.go:466-520 | every delivery, accepted or refused, strictly decreases missing sequence numbers times nodes plus frames in flight |
| `FloodingTermination.DeliveriesAreBounded` | internal/overlay/node.go:466-520 | a run of deliveries alone is no longer than the work it started with: flooding terminates |
| `FloodingTermination.EnumerationExists` | internal/overlay/node.go:466-520 | the measure exists in every state |
| `Settling.EveryRunCanSettle` | internal/overlay/node.go:466-520 | once the topology rests and nothing has expired, no run of deliveries is longer than the work there is, and each can be continued to a settled state |
| `Settling.MaximalRunSettles` | internal/overlay/node.go:466-520 | and one that cannot be continued is in a settled state, however frames overtook each other |
| `Settling.TwoNodesSettle` | internal/overlay/node.go:395-464 | two nodes that dial, register, exchange databases and announce do come to rest connected |
| `Quiescence.ComponentAgrees` | internal/overlay/node.go:466-520 | at quiescence all nodes of a connected component hold identical databases |
| `Quiescence.AdvertisesCurrentPeers` | internal/overlay/node.go:433-464 | and every node of it is there with exactly its current peers |
| `Quiescence.EdgesAreConnections` | internal/router/router.go:32-38 | mutual edges of that database are exactly the registered connections |
| `Quiescence.RoutesAreTheComponent` | internal/router/router.go:43-61 | the computed table reaches exactly the component |
| `Convergence.SettledDelivery` | internal/overlay/node.go:575-629 | in a settled network a packet follows exactly the route of its source and arrives if and only if the route has at most MaxHops hops |
| `Convergence.ReplicasAgree` | internal/overlay/directory.go:301-326 | any two nodes of a settled component compute the same ordered replica list for every service |
| `Convergence.ConnectedIsSymmetric` | internal/overlay/node.go:395-431 | settled registered connections work both ways |
| `Forwarding.PacketFollowsItsRoute` | internal/overlay/node.go:575-629 | with agreeing tables: as many sends as hops, no node twice, delivered if and only if hops are at most MaxHops, otherwise cut after MaxHops sends |
| `Forwarding.RelaysAreBounded` | internal/overlay/node.go:595-629 | with arbitrary tables one sending of a packet still visits at most MaxHops nodes after its source |
| `Forwarding.RelayedOnce` | internal/overlay/node.go:602-607 | with arbitrary tables, even circular ones, no node passes one packet identifier on twice, and none that has relayed it before |
| `Forwarding.SentPacketsAreRelayedOnce` | internal/overlay/node.go:602-607 | nor does the source relay its own packet more than once |
| `Forwarding.JourneyFollowsTables` | internal/overlay/node.go:575-629 | a packet goes only where tables and connections lead, is delivered exactly if it reaches its destination, and otherwise its hops are spent, the node has relayed it, or there is no route over a connected peer |
| `OverlayNode.Node.EmitLocalLSA` | internal/overlay/node.go:444-464 | stores and sends to every peer once an announcement that lists exactly the current peers; routes are recomputed |
| `OverlayNode.Node.HandleLSA` | internal/overlay/node.go:466-491 | state and frames after one received announcement equal the protocol step; routes stay the table of the database |
| `OverlayNode.Node.SendAllLSAs` | internal/overlay/node.go:493-504 | the frames to the peer are exactly the database, whether or not it is still in the table |
| `OverlayNode.Node.BroadcastLSA` | internal/overlay/node.go:506-520 | one frame to each peer but the excluded one, none twice |
| `OverlayNode.Node.RegisterPeer` | internal/overlay/node.go:395-421 | accepted exactly if there is no registered connection or the new one is preferred and the old is not; the new state is the table with it, one announcement (two if a replaced connection is closed), the database handed over, and nothing else |
| `OverlayNode.RegistersAsDecided` | internal/overlay/node.go:395-413 | the decision is that of the protocol step |
| `OverlayNode.JoiningIsSteps` | internal/overlay/node.go:395-421 | that state is what the protocol steps register, emit, sync make of the node |
| `OverlayNode.LeavingIsSteps` | internal/overlay/node.go:423-431 | likewise the state after a connection has ended |
| `OverlayNode.HandlingIsDelivery` | internal/overlay/node.go:466-491 | handling an announcement leaves the node and every queue as delivering it does in the protocol |
| `OverlayNode.AnnouncingIsEmission` | internal/overlay/node.go:444-464 | likewise announcing and the emission |
| `OverlayNode.Node.UnregisterPeer` | internal/overlay/node.go:423-431 | only the connection that is still registered is removed, one announcement of the peers is made and sent, and nothing else changes |
| `OverlayNode.Node.CleanupExpired` | internal/overlay/node.go:549-573 | afterwards every stored announcement of others has not expired, everything that had not expired and the own one is still there unchanged, old packet identifiers are gone, and routes are the table of what is left |
| `OverlayNode.Node.RecomputeRoutes` | internal/overlay/node.go:522 | routes become the table of the database |
| `OverlayNode.Node.PeerIds` | internal/overlay/node.go:433-442 | the peers, strictly ascending |
| `OverlayNode.Node.SendPacket` | internal/overlay/node.go:575-593 | the forwarding decision used in the delivery proofs |
| `OverlayNode.Node.HandlePacket` | internal/overlay/node.go:595-629 | passed on only if the identifier was not seen, more than one hop is left and the next hop of the route is connected, with one hop less; the identifier is remembered exactly then or when that fails, and the decision is the one of the delivery proofs |
| `OverlayNode.SentToTargets` | internal/overlay/node.go:506-520 | the frames of the loop are the targets of the protocol step |
| `SimultaneousOpen.NodesAgree` | internal/overlay/node.go:398-406 | both nodes prefer the same connections, the ones the smaller ID dialled |
| `SimultaneousOpen.FavouredSurvives` | internal/overlay/node.go:395-431 | in every interleaving of registrations, refusals, replacements and close notices the favoured connection is never closed, and at the end both tables hold it and all others are closed at both ends |
| `SimultaneousOpen.AgreeExactlyWhenFavoured` | internal/overlay/node.go:395-431 | every schedule ends in agreement if and only if the smaller node dialled exactly one connection, or there is only one at all |
| `SimultaneousOpen.BothDie` | internal/overlay/node.go:398-406 | otherwise a schedule exists after which no connection is left |
| `SimultaneousOpen.ScheduleIsBounded` | internal/overlay/peer.go:177-184 | at most six steps per connection |
| `CircuitSafety.NoOpenEverFails` | internal/overlay/circuit.go:94-124 | in every reachable state of building and data in both directions each waiting cell opens at its relay, and all layers at the client |
| `CircuitSafety.CountersBalance` | internal/overlay/circuit.go:215-295 | for every hop and direction the sealing counter is the opening counter plus the cells in flight |
| `CircuitSafety.CommandsArriveInOrder` | internal/overlay/circuit.go:472-518 | the last relay has acted on exactly the client's commands in order up to those in flight, and likewise back |
| `CircuitSafety.NothingSealedTwice` | internal/overlay/crypto.go:79-85 | no key seals twice under one sequence number, over all hops and directions |
| `CircuitSafety.KeysAreShared` | internal/overlay/circuit.go:81-93 | each hop shares its two keys with exactly one relay; hops share none |
| `CircuitSafety.BuildingIsNeverStuck` | internal/overlay/circuit.go:559-643 | until all hops joined or one was refused some step of the protocol is possible |
| `CircuitProgress.RunsAreBounded` | internal/overlay/circuit.go:94-358 | a run over n hops takes at most 2n+1 steps for each hop and for each command a user sends |
| `CircuitProgress.BuildingEnds` | internal/overlay/circuit.go:559-643 | so every run ends, and one that cannot go on without its users has all hops or was refused one |
| `CircuitProgress.StepSpends` | internal/overlay/circuit.go:94-358 | every step of the protocol does some of the work that is left |
| `CircuitSteps.StepKeeps` | internal/overlay/circuit.go:184-358 | each step of building and relaying keeps the circuit invariant |
| `CircuitSteps.ForwardAlwaysOpens` | internal/overlay/circuit.go:215-258 | the next forward cell opens under the relay's key and number |
| `CircuitSteps.ClientAlwaysOpens` | internal/overlay/circuit.go:489-518 | the next reverse cell opens through all hops |
| `Onion.UnwrapsOnlyWhatWasWrapped` | internal/overlay/circuit.go:489-505 | the client accepts exactly what all its relays have sealed under their keys and next numbers, in order |
| `Onion.RelayOpensItsLayer` | internal/overlay/circuit.go:215-232 | a relay takes off exactly the layer under its key and number |
| `Onion.HopKeysAreApart` | internal/overlay/circuit.go:81-93 | derived keys agree only on the same secret, nonces and direction |
| `CircuitEndpoints.ClientCircuit.SendRelay` | internal/overlay/circuit.go:472-488 | the loop wraps for all hops, last innermost, and counts each |
| `CircuitEndpoints.ClientCircuit.HandleReverse` | internal/overlay/circuit.go:489-518 | the loop opens hop by hop or closes on the first failure |
| `CircuitEndpoints.RelayCircuit.HandleForward` | internal/overlay/circuit.go:215-258 | open, count, then pass on, act, or destroy |
| `CircuitEndpoints.RelayCircuit.WrapReverse` | internal/overlay/circuit.go:259-295 | one more layer under the next number, nothing after a close |
| `CircuitStream.CircuitConn.Write` | internal/overlay/circuit.go:785-809 | the cells of a write are the wrapped data commands of its pieces, in order; after a deadline none, after a failing send the ones before it, the total counts exactly their bytes, and the failed one has used its numbers |
| `CircuitStream.CircuitConn.Read` | internal/overlay/circuit.go:734-784 | result, buffer and remaining responses of one read; a passed deadline, an ended circuit and an error are told apart |
| `CircuitStream.ServiceGetsPrefix` | internal/overlay/circuit.go:239-255 | whenever one looks, the service behind the last relay has been given a prefix of what the client sent it |
| `CircuitStream.ClientReadsPrefix` | internal/overlay/circuit.go:734-784 | whatever the buffer sizes and interrupted waits, the client has read a prefix of what the circuit returned |
| `CircuitStream.ReadOnceConserves` | internal/overlay/circuit.go:734-784 | one read moves bytes from responses over buffer to caller and loses none |
| `CircuitStream.ReadTakesFirstThatMatters` | internal/overlay/circuit.go:756-781 | a read comes back with the first data, close, refusal or failure among the responses, passes over everything else, and keeps what does not fit |
| `CircuitStream.ReadInVain` | internal/overlay/circuit.go:756-762 | waiting in vain is the end of the stream if the circuit is done and a timeout if the deadline has passed |
| `CircuitStream.BufferComesFirst` | internal/overlay/circuit.go:734-748 | buffered bytes come first; a closed connection gives an error |
| `CircuitStream.ServiceGetsWhatIsBetween` | internal/overlay/circuit.go:235-257 | the service gets exactly the data between its opening and the close |
| `CircuitStream.CellsAreNumbered` | internal/overlay/circuit.go:472-488 | each cell of a write is wrapped under the counters the cells before it have left |
| `CircuitPath.CircuitPathTo` | internal/overlay/circuit.go:645-690 | a simple path over mutual links; a detour only over the least possible waypoint and within MaxHops; shorter than CircuitHops only if no waypoint gives a detour |
| `CircuitPath.TryWaypoint` | internal/overlay/circuit.go:667-686 | the concatenated walks if simple and of acceptable length, else no detour over that waypoint exists |
| `Rendezvous.Sender.Write` | internal/overlay/rendezvous_crypto.go:96-130 | the wire gets the numbered frames of the chunks; if the connection fails, what it took of them, and total and counter say how many went out whole |
| `Rendezvous.FailedWriteGivesTotal` | internal/overlay/rendezvous_crypto.go:96-169 | after a write that failed anywhere, all reads together give at most what was written before and what that write reported, and none of them fails |
| `Rendezvous.Sender.WriteChunk` | internal/overlay/rendezvous_crypto.go:104-126 | header and cipher text of one chunk, or as much as the connection takes; every chunk fits the frame limit, and only a whole frame is counted |
| `Rendezvous.Receiver.Read` | internal/overlay/rendezvous_crypto.go:131-169 | result, counter, buffer and rest of the wire after one read of any size |
| `Rendezvous.FrameIsRead` | internal/overlay/rendezvous_crypto.go:140-162 | every frame a writer emits passes the reader's size and sequence checks and opens to its chunk |
| `Rendezvous.RefinesBytePipe` | internal/overlay/rendezvous_crypto.go:96-169 | after any interleaving of writes and reads of any sizes (zero included): nothing failed, read + buffer + decrypted unread wire = written, counters match |
| `Rendezvous.ReadsMakeProgress` | internal/overlay/rendezvous_crypto.go:131-169 | a read with room gets at least one byte unless all was read |
| `Rendezvous.DeliveredIsAuthentic` | internal/overlay/rendezvous_crypto.go:140-162 | only text of a frame with the expected number and a length within bounds, authenticated under this session and number, is delivered |
| `Rendezvous.RefusedFrames` | internal/overlay/rendezvous_crypto.go:146-162 | another number, a length out of bounds and a text that does not authenticate are each refused |
| `Rendezvous.RefusedDeliversNothing` | internal/overlay/rendezvous_crypto.go:146-162 | and give the reader nothing |
| `Rendezvous.AadIsInjective` | internal/overlay/rendezvous_crypto.go:170-178 | associated data determines service, cookie and number |
| `Crypto.NoncesDiffer` | internal/overlay/crypto.go:79-85 | one key, different numbers, different nonces |
| `Crypto.NonceLayout` | internal/overlay/crypto.go:79-85 | four bytes of the digest, then the number |
| `Crypto.StreamAadIsInjective` | internal/overlay/crypto.go:87-95 | associated data determines stream, direction and number |
| `Crypto.Hkdf` | internal/overlay/crypto.go:54-69 | the first `length` bytes of the block sequence of section 2.3 of RFC 5869, however many blocks one compares with |
| `Crypto.TwoBlocks` | internal/overlay/crypto.go:54-69 | the first two blocks written out |
| `Rendezvous.EndsMirror` | internal/overlay/rendezvous_crypto.go:64-95 | each end derives both keys from its own private key and the other's public one; what the client sends under is what the service receives under and the reverse (`internal/overlay/rendezvous.go:449` and `:589`) |
| `Rendezvous.KeysAreBlocks` | internal/overlay/rendezvous_crypto.go:67-79 | the two keys are the first two HKDF blocks of the shared secret, under the digest of both nonces as salt and label, service and cookie as info |
| `Rendezvous.NeverTwiceExactlyWhenBlocksDiffer` | internal/overlay/rendezvous_crypto.go:64-130 | in every run of both ends with fewer than 2^64 chunks each no key and nonce is used twice, if and only if those two blocks differ |
| `Rendezvous.EndsUseTerms` | internal/overlay/rendezvous_crypto.go:91-95 | all sessions of both ends carry the agreed service and cookie and the nonce digest of `internal/overlay/crypto.go:79-85` |
| `Rendezvous.EndsAreBytePipes` | internal/overlay/rendezvous_crypto.go:64-169 | so the two ends have a byte pipe in each direction, under any interleaving of their writes and reads |
| `DirectStream.StreamEnd.PumpLoop` | internal/overlay/stream.go:59-85 | the packets sent are exactly the numbered sealed chunks read until the end or a failed send |
| `DirectStream.StreamEnd.ReceiveLoop` | internal/overlay/stream.go:87-118 | state and output after any queue of packets |
| `DirectStream.PumpLoopRuns` | internal/overlay/stream.go:59-85 | the sender's steps in a run seal exactly what its loop seals |
| `DirectStream.ReceiveLoopRuns` | internal/overlay/stream.go:87-118 | the receiver's steps in a run leave what its loop leaves |
| `DirectStream.WrittenIsPrefixOfRead` | internal/overlay/stream.go:59-118 | under loss, duplication, reordering, replay and injected noise the bytes written are a prefix of the bytes read, and exactly the first chunks while the stream lives |
| `DirectStream.InOrderDeliversAll` | internal/overlay/stream.go:59-118 | if nothing is lost or reordered everything arrives, even when the counter wraps |
| `DirectStream.UnexpectedPacketEndsStream` | internal/overlay/stream.go:98-108 | a packet with another sender, another number or that does not authenticate ends the stream: nothing is written for it or later |
| `DirectStream.ExpectedPacketIsWritten` | internal/overlay/stream.go:106-116 | the expected one is written whole, or as far as the endpoint takes it, and then the stream ends |
| `DirectStream.SenderStops` | internal/overlay/stream.go:62-84 | after the end, a failed send or a close nothing is sealed any more |
| `DirectStream.SafeExactlyBeforeWrap` | internal/overlay/stream.go:64-68 | no network can break the prefix property if and only if fewer than 2^64 chunks are sent |
| `DirectStream.ReplayAfterWrap` | internal/overlay/stream.go:98-108 | after 2^64 chunks the receiver takes a replay of the first packet |
| `OpenHandshake.StepKeeps` | internal/overlay/stream.go:154-383 | each step of opening, replying, registering, announcing, pumping and closing keeps the handshake invariant |
| `OpenHandshake.DataFindsItsStream` | internal/overlay/stream.go:278-291 | data is only sent to a node that registered the stream; a missing table entry means that node closed it |
| `OpenHandshake.DataFindsItsSession` | internal/overlay/stream.go:304-383 | data goes to a node that registered exactly the session it is sealed for, unless its sender is an acceptor that has registered another session of the stream as well |
| `OpenHandshake.SessionsMatchExactlyWhenStrict` | internal/overlay/stream.go:304-330 | data always meets its session in every continuation if and only if opening packets are refused for every stream ever registered, not just for those still open as the guard of `handleOpen` does |
| `OpenHandshake.StrictRunMatches` | internal/overlay/stream.go:304-330 | as long as no opening packet is accepted for a stream that was registered before, all data matches |
| `OpenHandshake.ReopenedStreamSendsUnderNewKeys` | internal/overlay/stream.go:354-366 | from any state with a READY under way, and for any nonce not used yet: a repeated opening packet after a close makes the acceptor send under keys the opener never has |
| `OpenHandshake.OpenerAgreesWithAcceptor` | internal/overlay/stream.go:205-225 | whatever session an opener holds, the acceptor has registered it |
| `OpenHandshake.OpeningSucceeds` | internal/overlay/stream.go:154-239 | from every reached state, if nothing is lost or refused, an opening call puts the stream into both tables under one session, starts both pumps and returns |
| `OpenHandshake.RefusedOpeningLeavesNothing` | internal/overlay/stream.go:189-211 | a refused one leaves nothing at either node |
| `OpenHandshake.ResumeRegistersExactly` | internal/overlay/stream.go:189-226 | a reply registers exactly the session it acknowledges if it comes from the destination and verifies, and otherwise nothing |
| `OpenHandshake.OnlyFirstReplyCounts` | internal/overlay/stream.go:249-277 | the first reply is kept for the waiting call, any other is dropped |
| `OpenHandshake.OpeningPacketIsAnswered` | internal/overlay/stream.go:304-330 | an opening packet for a stream in the table, or refused, gets an error and changes nothing; any other one an acknowledgement and an entry |
| `OpenHandshake.CloseArrives` | internal/overlay/stream.go:292-299 | an arriving close takes the stream out of the table, records it as closed, sends nothing and touches nothing else |
| `OpenHandshake.NoticeClosesBothEnds` | internal/overlay/stream.go:128-142 | a close with notice, whenever the notice arrives, leaves the stream in neither table, in every run in which nobody accepts its opening packet again |
| `OpenHandshake.FailedReadyCloses` | internal/overlay/stream.go:229-233 | when READY cannot be sent the stream is gone and the call over |
| `OpenHandshake.Node.HandleLocalPacket` | internal/overlay/stream.go:241-302 | tables, replies and pumps to start after any packet |
| `OpenHandshake.Node.StartOpen` | internal/overlay/stream.go:176-187 | the pending entry and the opening packet |
| `OpenHandshake.Node.ResumeOpen` | internal/overlay/stream.go:189-226 | only a verified acknowledgement from the destination registers the stream |
| `OpenHandshake.Node.FinishOpen` | internal/overlay/stream.go:227-238 | the READY that is sent, then the pump; a failed READY closes |
| `OpenHandshake.Node.Close` | internal/overlay/stream.go:128-142 | the entry goes once, with a notice if asked |
| `Directory.XorLess` | internal/overlay/directory.go:314-326 | the loop decides exactly by the numeric value of the exclusive or of identifier and service |
| `Directory.XorSetsDifferingBits` | internal/overlay/directory.go:316-317 | a bit of it is set exactly where identifier and service differ |
| `Directory.ZeroDistanceIsEquality` | internal/overlay/directory.go:314-326 | only the identifier equal to the service is at distance 0 |
| `Directory.DistanceIsInjective` | internal/overlay/directory.go:314-326 | no two identifiers are equally far: a strict total order |
| `Directory.ClosestDirectoryNodes` | internal/overlay/directory.go:301-313 | the count closest members, closest first, every chosen one closer than every other |
| `Directory.ReplicasAreDetermined` | internal/overlay/directory.go:301-313 | that list depends on nothing but members, service and count |
| `Directory.OwnServiceComesFirst` | internal/overlay/directory.go:301-313 | a member whose identifier is that of the service heads the list |
| `Revisions.PublishedService.NextRevision` | internal/overlay/directory.go:143-149 | memory moves on even when saving fails; only saved numbers are handed out |
| `Revisions.RevisionsIncrease` | internal/overlay/directory.go:96-149 | over every run of attempts, failed saves, crashes before and after the rename and restarts, published revisions strictly increase |
| `Revisions.SafeExactlyWithRoom` | internal/overlay/directory.go:143-149 | from a file that holds v, all runs of at most n attempts publish increasing revisions above v if and only if v + n < 2^64 |
| `Revisions.RestartWithoutFileGoesOn` | internal/overlay/directory.go:87-94 | a publisher that lost its file and restarts at a later millisecond goes on above everything it published, if it made fewer than 65536 attempts for every millisecond since a start |
| `Revisions.OnePublisherIsInOrder` | internal/directory/descriptor.go:35-48 | one publisher with one lifetime and a forward clock makes descriptors that expire in revision order |
| `Revisions.NeverRollsBackExactlyWhen` | internal/overlay/directory.go:276-300 | a replica that is not told to forget takes only ever higher revisions, across expiry and sweeping, if and only if descriptors expire in revision order |
| `Revisions.NeverTakesOlderExactlyWhen` | internal/overlay/directory.go:276-300 | with forgetting, no run takes a lower revision after a higher one if and only if every lower one has expired before the higher one can be taken |
| `Revisions.ForgettingRollsBack` | internal/overlay/directory.go:410-414 | any lower revision that is still valid then comes back after the higher one is forgotten |
| `Revisions.LookupReturnsLatest` | internal/overlay/directory.go:332-408 | once a publication reached all replicas, every later lookup that has heard one of them finds that very service at that revision or higher while it has not expired, and one that heard only them never has an older one; the service match follows from the table keys |
| `Revisions.AnswerIsFound` | internal/overlay/directory.go:363-407 | the moment any replica's answer is heard the lookup has found it |
| `Revisions.DirectoryNode.StoreDescriptor` | internal/overlay/directory.go:276-289 | stored exactly if it verifies and is newer; keys stay right |
| `Revisions.DirectoryNode.CleanDescriptors` | internal/overlay/directory.go:290-299 | exactly the expired ones go |
| `Revisions.DirectoryNode.InvalidateServiceDescriptor` | internal/overlay/directory.go:410-414 | exactly that entry goes |
| `Revisions.DirectoryNode.Conclude` | internal/overlay/directory.go:363-407 | the highest verified revision among the replies, stored too |
| `Revisions.FinishedLookupIsKept` | internal/overlay/directory.go:375-381 | and in runs the client keeps what the lookup found or something as new |
| `Revisions.SweepDropsExactlyExpired` | internal/overlay/directory.go:290-299 | and sweeping leaves exactly what has not expired |
| `TokenBucket.Server.AllowRequest` | internal/discovery/beacon.go:258-294 | decision and table after one request, eviction included |
| `TokenBucket.Server.SetRateLimit` | internal/discovery/beacon.go:159-167 | non-positive limits are ignored |
| `TokenBucket.Server.DropIdle` | internal/discovery/beacon.go:285-292 | exactly the records idle for over ten minutes go |
| `TokenBucket.WindowBound` | internal/discovery/beacon.go:267-283 | without eviction every host is accepted at most burst + rate x window times, in every window of every run |
| `TokenBucket.PatientHostIsServed` | internal/discovery/beacon.go:271-279 | a host that waited for one token is accepted |
| `TokenBucket.RequestSettlesAccount` | internal/discovery/beacon.go:267-283 | accepted exactly with a whole token, and the record then holds what is left at this moment |
| `TokenBucket.ForgetsExactlyIdle` | internal/discovery/beacon.go:285-292 | other hosts are forgotten only by an accepted request that leaves more than 4096 records, and then exactly those idle for over ten minutes |
| `TokenBucket.UnnoticedExactlyWhenFull` | internal/discovery/beacon.go:285-292 | eviction changes no decision of any run if and only if 600 x rate >= burst |
| `TokenBucket.BoundedExactlyWhenFull` | internal/discovery/beacon.go:258-294 | the limiter with eviction keeps the window bound under exactly the same condition |
| `Wire.WriteFrame` | internal/protocol/wire.go:50-64 | written exactly if the frame fits |
| `Wire.ReadFrame` | internal/protocol/wire.go:66-80 | the first frame of the stream and the rest, or an error |
| `Wire.FramesRoundTrip` | internal/protocol/wire.go:50-80 | reading the concatenation of any written frames gives exactly them and what follows |
| `Wire.BrokenStreamGivesPrefix` | internal/protocol/wire.go:66-80 | a stream cut anywhere gives a prefix of the frames |
| `Wire.CutFrameIsNoFrame` | internal/protocol/wire.go:66-80 | a cut frame is never taken for a frame |
| `Wire.FrameReencodes` | internal/protocol/wire.go:66-80 | nothing but a frame that fits, in its one encoding, is read as one |
| `Wire.MarshalPacket` | internal/protocol/wire.go:82-104 | the buffer filled in place is the packet's format |
| `Wire.PacketRoundTrip` | internal/protocol/wire.go:82-128 | parsing gives the packet back, version 0 as 1 |
| `Wire.PacketReencodes` | internal/protocol/wire.go:106-128 | accepted bytes marshal to themselves |
| `Wire.PacketLayout` | internal/protocol/wire.go:91-103 | every field is at its offset |
| `Wire.MarshalCell` | internal/protocol/circuit.go:33-46 | the same for circuit cells |
| `Wire.CellRoundTrip` | internal/protocol/circuit.go:33-56 | parsing gives the cell back |
| `Wire.CellReencodes` | internal/protocol/circuit.go:47-56 | accepted cell bytes marshal to themselves |
| `Wire.CellLayout` | internal/protocol/circuit.go:39-45 | likewise those of cells and relay payloads |
| `Wire.RelayRoundTrip` | internal/protocol/circuit.go:57-63 | relay payloads round-trip both ways |
| `Base32.RoundTrip` | internal/nodeid/nodeid.go:22-49 | any bytes are read back from their unpadded Base32 (section 6 of RFC 4648) |
| `Base32.EncodeIsInjective` | internal/nodeid/nodeid.go:47-49 | different bytes print differently |
| `Base32.AlphabetIsStandard` | internal/nodeid/nodeid.go:47-49 | each of the 32 characters has the value of table 3 of section 6 of RFC 4648, and no other has one |
| `Base32.GroupsSpellTheBytes` | internal/nodeid/nodeid.go:47-49 | five bytes and their eight groups spell the same 40-bit number |
| `Base32.StrangersAreRefused` | internal/nodeid/nodeid.go:22-49 | any character outside the alphabet but a line break makes a text unreadable |
| `Naming.EncodeLabel` | internal/naming/domain.go:36-43 | the filled buffer prints as kind, identity, checksum |
| `Naming.LabelRoundTrip` | internal/naming/domain.go:36-85 | a printed label parses to its kind and identity |
| `Naming.LabelsAreChecked` | internal/naming/domain.go:62-85 | a label is accepted exactly if it decodes to a kind, an identity and the first two bytes of the digest of both |
| `Naming.WrongChecksumIsRefused` | internal/naming/domain.go:71-74 | so any other two bytes at its end are refused |
| `Naming.IdRoundTrip` | internal/nodeid/nodeid.go:22-49 | printed identifiers parse back |
| `Naming.IdsAreChecked` | internal/nodeid/nodeid.go:22-37 | an identifier is accepted exactly with its prefix and 32 bytes |
| `Naming.ServiceDomainRoundTrip` | internal/naming/domain.go:48-189 | a printed service domain resolves to that node and service under any alias list, dots in the service included, however typed |
| `Naming.DomainRoundTrip` | internal/naming/domain.go:45-164 | a bare node domain resolves to the default service |
| `Naming.IdentityDomainRoundTrip` | internal/naming/domain.go:46-150 | a service identity domain resolves to that identity |
| `Naming.IdentityDomainTakesNoPrefix` | internal/naming/domain.go:145-148 | and with anything in front is refused |
| `Naming.ServiceDomainIsInjective` | internal/naming/domain.go:48-54 | equal domains mean equal node and service |
| `Naming.ResolvesOnlyWhatItNames` | internal/naming/domain.go:128-189 | nothing resolves but a host under `.knot` without a port, and only to what its last label or an alias of it stands for, with a valid service |
| `Naming.ServicesAreNormalized` | internal/naming/domain.go:245-251 | services may be written in any case and with white space around, and none is the default |
| `Naming.ReferenceRoundTrip` | internal/naming/domain.go:206-227 | references resolve whether written as domain or as identifier |
| `Naming.OtherKindIsRefused` | internal/naming/domain.go:206-227 | a reference to something of the other kind is refused |
| `Naming.AliasRoundTrip` | internal/naming/domain.go:165-188 | the first alias of a name resolves to its node, with a service in front or bare, unless the name is itself an address |
| `Naming.ServiceAliasRoundTrip` | internal/naming/domain.go:165-176 | the first alias of a service identity resolves to it when it stands alone, and to an error behind a service |
| `Naming.UnknownNameFails` | internal/naming/domain.go:165-188 | a name without an alias resolves to nothing |
| `Text.JoinSplit` | internal/naming/domain.go:139-156 | joining undoes splitting, empty parts included |
| `Text.SplitAppend` | internal/naming/domain.go:139-156 | splitting at a separator splits both sides |
| `Text.TrimStrips` | internal/naming/domain.go:129-130 | exactly the white space around a text goes |

## Left out

- TLS, sockets, timers, contexts, goroutine scheduling, HTTP handlers, SOCKS and HTTP gateways, the
  dashboard, PAC files, the Docker agent, command lines and configuration loading: I/O plumbing.
- JSON, base64, X.509 and the internals of all cryptographic primitives: parameters or ideal operations.
- The LSA fields that routing does not look at (addresses, services, network) and the sorting of
  neighbours in `internal/protocol/control.go:48-70`, beyond what the announcements must list.
- Concurrent announcements of one node, as said under the assumptions.
- Circuit teardown: DESTROY, closing and failing links; the model proves nothing about tables after a
  close. The extending goroutine is one atomic step.
- CircuitSteps.StepKeeps: a relay refuses an extension before it has sent the CREATE on. The refusal after
  a timeout, with a next relay that may already have made keys, is not a step.
- Forwarding.RelaysAreBounded: bounds one sending. Stream-control packets are sent again for up to five
  seconds under fresh packet identifiers while sending fails (`internal/overlay/stream.go:394-412`), and
  relays do so too, so one such packet may be relayed several times.
- OverlayNode.Node.HandlePacket: gives the first attempt of that retry loop.
- Rendezvous.FailedWriteGivesTotal: covers reads after a failed write, not writes after it. The counter has
  not moved on then, so a caller that goes on writing spoils the stream; the program closes it.
- Circuit counters are unbounded numbers; a wrap after 2^64 cells is not modelled.
- CircuitStream.ClientReadsPrefix: claims a prefix only, because a read may report the end of the stream
  while responses still hold data; it also assumes one reader at a time.
- Naming.AliasRoundTrip: the service in front has no dot, because an alias takes one label. Text is ASCII: the Unicode cases of lower-casing and of case-insensitive comparison are not modelled.
- Base32.RoundTrip: print-then-parse only, because the decoder accepts more than the encoder emits
  (line breaks, trailing bits).
- TokenBucket.UnnoticedExactlyWhenFull: times and tokens are real numbers; rounding and the nanosecond
  clock are not modelled, nor is a clock that goes backwards between requests.
- Revisions.LookupReturnsLatest: covers lookups that ask the replicas; a lookup answered from the
  client's own cache may be older. Who the replicas are comes from `Convergence.ReplicasAgree`.
- Services without an identity file get a new identity at every start, so their revisions do not continue.
- OpenHandshake.DataFindsItsStream: one entry per stream ID and honest endpoints; the local shortcut for
  a stream to oneself does not use the network.
- The peer table of the beacon, which keeps the last announced addresses of each node until they expire
  and answers with the 64 newest, and bootstrap records, peer exchange and the peer cache, which hold
  addresses to dial: they are hints, and no other part of the model depends on what is in them.
- The derivation of direct-stream and circuit keys: `DirectStream` and `Onion` have ideal keys. The
  construction in `internal/overlay/crypto.go:39-49` has the form proved for `Rendezvous.Keys`.
- The signatures of announcements to the beacon, invitations and alias records.
- The social store and mailbox, the control-plane queue and the order of transport plans: lists kept
  sorted by time and cut at a length, apart from the overlay.
- Liveness that depends on real time, anonymity and traffic analysis.
