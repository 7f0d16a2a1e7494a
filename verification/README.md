# A verified model of the virtual BLE medium

The repository simulates Bluetooth Low Energy without radios. Controllers (`vbt_ll.c`) run
the HCI and Link-Layer state machine of one device each. They talk over sockets to a medium
hub (`vbt_medium.c`), which broadcasts advertising PDUs and turns data PDUs into virtual
point-to-point links; hubs are joined by bridges into networks. Two transports carry HCI
packets to a guest, and a Python fleet plays peripherals.

This project models those parts in Dafny and proves what they promise: over every run, every
interleaving and every input, not for examples.

| module | models |
|---|---|
| `Wire`, `HubModel` | the hub as a state machine over values: every step, with its observable trace |
| `Hub` | the hub as it runs, a class over the slot arrays, each method proved equal to the step |
| `HubInvariants`, `HubRouting`, `HubTraffic`, `HubSafety`, `HubService`, `HubStats`, `Isolation` | one hub over every run: what it keeps, whom it serves, what it counts |
| `Flood`, `Network`, `Decay`, `Link`, `Loss`, `Connect` | any number of hubs, any bridge graph, frames under way in any order, with and without failures |
| `Framing`, `Channel` | length-prefixed messages over partial writes, backlog and chunked reads |
| `LinkLayer`, `Controller` | the controller over values, and as a class that runs it in place |
| `Hci`, `Settings`, `Setup`, `PeerLink`, `Duo`, `Provenance`, `Lcg`, `AccessAddrs` | one controller and its host, two that connect, two on a link, any number on the air, Access Addresses |
| `Ring` | the 256-slot queue of HCI packets toward the guest, and the scattered buffers |
| `AdData`, `Gatt`, `GattServer` | advertising data, the GATT database, discovery, subscriptions |
| `Witnesses` | inputs at which promises fail |

How the code is modelled:

- Imperative code becomes a class or a method with loops (`Hub.MediumHub`, `Channel.Outbox`,
  `Channel.Inbox`, `Controller.BleController`, `Ring.PendingRing`, `GattServer.Device`,
  `AdData.PackAds`, ...). Each method's contract ties the new state to a function of the old
  one, and the theorems are about that function.
- What the code gets from outside is a parameter that ranges over everything: which frames
  the propagation model lets through, how each socket write ends, how reads are chunked,
  which buffers the guest supplies, the order in which frames under way arrive.
- Integer widths are explicit where they matter: the generator is modulo 2^32, the ring
  counters wrap at 2^32, the tick compares modulo 2^64. Addresses and Access Addresses are
  numbers, converted from and to octets least significant first.
- Node names are numbers; only their equality is used.

Where a promise does not hold of the code, the model keeps the code, shows an input, and
proves exactly when the promise does hold:

- A bridge loop within eight links of the initiator's hub makes the hub forget which node
  initiated a connection, since the returning CONNECT_IND overwrites the entry. The way to
  the initiator is then dead, while the advertiser gets a PDU once for every walk to its hub
  and hears its own PDUs echoed. A flooded request sets its connection up if and only if
  there is no such loop and the advertiser is in reach (`Connect.EstablishedIff`,
  `Connect.LoopDeafensInitiator`; a network of two hubs and two bridges:
  `Witnesses.LoopBreaksConnection`).
- A bridge loop further away leaves the connection up, but PDUs then come more than once or
  come back to their sender. On a connection that is up, a PDU reaches the far end exactly
  once and nobody else if and only if exactly one walk of at most eight links leads to its
  hub, unless that is the sender's own, and none leads back (`Link.ExactlyOnceIff`); not more
  than once, whatever fails, if and only if at most one leads there and none back
  (`Loss.AtMostOnceIff`; a chain of four hubs with a triangle at its end:
  `Witnesses.FarLoopRepeats`).
- The hub goes on reading from a socket after it has handled a frame from it. The socket is
  still open then, unless the frame is a data PDU of a connection of the node with itself
  and the write fails (`HubTraffic.SenderLostIff`, `HubSafety.SenderLostOrigin`; a run:
  `Witnesses.SelfConnection`).
- A hub that only carries a connection between other hubs keeps its entry for good, as no
  departure ends it (`Isolation.TransitRouteStays`; a run: `Witnesses.EntryRemains`); it
  ignores a new connection if and only if all 512 entries are in use
  (`HubRouting.IgnoredIff`).
- Seeding the generator from the device address does not always keep two controllers' draws
  apart: having drawn equally often they agree in their low k bits if and only if their
  addresses, read to the base 33, differ by a multiple of 2^k
  (`AccessAddrs.DrawsCollideIff`; never if one octet differs: `AccessAddrs.NeighboursDiffer`;
  two addresses with equal draws: `AccessAddrs.SameSeed`).
- A controller that is reset forgets its connections without telling the far ends. Whenever a
  link is quiet both its ends are up or neither is, if no end was reset (`Duo.EndsAgree`; and
  not if one was: `Duo.ResetForgets`).
- A second hello on one socket leaves two nodes naming that socket
  (`HubTraffic.BindExactIff`; a run: `Witnesses.TwoHellos`).
- A node that has used eight addresses is not found under a ninth (`HubRouting.LearnedIff`;
  nine addresses: `Witnesses.NinthAddress`).
- Service discovery skips services when 16-bit and 128-bit UUIDs are mixed in the wrong order
  (`Gatt.DiscoveryCompleteIff`; three services: `Gatt.MixedWidthsMiss`).
- A CCCD keeps reading as enabled after the connection in which it was written, although the
  subscription is gone (`GattServer.StaleIff`; a client: `Witnesses.StaleCccd`).

Assumptions, stated in the contracts that use them:

- One hello a socket, and none from bridges, as the shipped clients behave
  (`vbt_controller.c:127-136`). The results that need it say `Disciplined` or `Exact`.
- The two ends of a connection are different nodes, in the results of `Link`, `Loss` and
  `Connect`: the data path has no source check (`vbt_medium.c:701-706`).
- That a PDU or a request arrives is proved for reliable sockets that the propagation model
  does not silence (`Reliable`); that flooding ends, and that nobody gets a PDU too often or
  by mistake, is proved whatever fails (`Decay`, `Loss`). While a frame is under way the rest
  of the network may change in any way that keeps the connection up, and
  `Isolation.ConnectionsIsolated` shows which events do.
- `Duo` runs two controllers over a FIFO link on an Access Address that neither has twice.

The test in `vbt_ll.c:1031` for a generated Access Address that equals the advertising one can
never succeed, because bit 31 has been cleared before; `Lcg.AccessAddrShape` proves it.

## Model

| member | source | states |
|---|---|---|
| Hub.MediumHub.constructor | vbt_medium.c:104-144 | the tables start empty |
| Hub.MediumHub.FindNodeByAddr | vbt_medium.c:290-300 | returns the lowest node that holds the address, or none |
| Hub.MediumHub.FindNode | vbt_medium.c:262-283 | returns the node of that name, or none |
| Hub.MediumHub.RemoveAddr | vbt_medium.c:308-319 | the swap-delete loop empties one node of an address: the array then is the reference sweep |
| Hub.MediumHub.NodeAddAddr | vbt_medium.c:302-326 | takes the address from every other node and gives it to this one if it has room |
| Hub.MediumHub.FindConnection | vbt_medium.c:340-347 | returns the first active entry for the Access Address, none for a reserved one |
| Hub.MediumHub.ConnAlloc | vbt_medium.c:349-366 | takes the first inactive slot or a new one, fails when the table is full |
| Hub.MediumHub.ObserveConnectInd | vbt_medium.c:369-401 | a well-formed CONNECT_IND updates the entry for its Access Address or opens one |
| Hub.MediumHub.ConnsDropNode | vbt_medium.c:404-413 | closes exactly the entries that name the node, and counts them |
| Hub.MediumHub.ClosePeer | vbt_medium.c:497-521 | unbinds the node, drops its connections and blanks the slot |
| Hub.MediumHub.PeerAlloc | vbt_medium.c:816-839 | a socket gets the first closed slot or a new one and its index is returned, or the table is full and it is refused |
| Hub.MediumHub.FindOrAddNode | vbt_medium.c:262-283 | finds or creates the node, and fails when the table is full |
| Hub.MediumHub.RebindPeer | vbt_medium.c:585-603 | the node moves to the new peer and the one it had is unbound |
| Hub.MediumHub.BindPeerNode | vbt_medium.c:585-603 | a hello binds its socket to the node it names |
| Hub.MediumHub.HandleHello | vbt_medium.c:727-760 | a monitor becomes a tap, any other hello binds |
| Hub.MediumHub.DeliverToPeer | vbt_medium.c:610-623 | one copy to one peer: counted, dropped by the backlog, or the peer is closed |
| Hub.MediumHub.DropByModel | vbt_medium.c:668-674 | a frame kept away by the propagation model is counted globally and at its node |
| Hub.MediumHub.VisitPeer | vbt_medium.c:648-679 | one turn of a loop over the peer table is one turn of the reference loop |
| Hub.MediumHub.VisitPeers | vbt_medium.c:648-679 | a loop over the peer table does the reference iteration, although peers may close under it |
| Hub.MediumHub.CountAndPick | vbt_medium.c:694-700 | the PDU is counted and the endpoint opposite to the sender picked |
| Hub.MediumHub.SendToEndpoint | vbt_medium.c:701-708 | the opposite endpoint, if online here, gets the PDU or the model drops it |
| Hub.MediumHub.MirrorToBridges | vbt_medium.c:711-718 | every other bridge gets a copy of a routed data PDU |
| Hub.MediumHub.ForwardData | vbt_medium.c:681-718 | a data PDU goes to the opposite endpoint and the bridges, or to the bridges only |
| Hub.MediumHub.ForwardAdvertising | vbt_medium.c:654-679 | an advertising PDU is snooped and goes to every listener |
| Hub.MediumHub.NoteSender | vbt_medium.c:641-646 | the sender is counted and its address learned |
| Hub.MediumHub.OverhearFrame | vbt_medium.c:641-652 | the sender is noted and every tap served before any routing |
| Hub.MediumHub.ForwardFrame | vbt_medium.c:625-720 | everything the hub does with one frame, TTL handling included, is the step of the model |
| Hub.MediumHub.HandleEvent | vbt_medium.c:1386-1410 | whatever the poll loop serves does to tables and trace what the step of the model says |
| Hub.MediumHub.Serve | vbt_medium.c:1353-1410 | so over any events from the start the tables and the trace are those of the runs that the theorems are about |
| HubInvariants.SweepRemovesExactly | vbt_medium.c:308-319 | swap-deletion removes every copy of the address and keeps the multiset of the others |
| HubInvariants.AddAddrHoldings | vbt_medium.c:302-326 | afterwards only the sender holds the address, at most once, and all other holdings are as before |
| HubInvariants.DropNodeCount | vbt_medium.c:404-413 | active entries fall by exactly the number counted as closed |
| HubInvariants.StepKeeps | vbt_medium.c:497-839 | every event keeps the whole invariant |
| HubInvariants.ReachableInv | vbt_medium.c:262-839 | in every reachable state each address has one holder, active Access Addresses are distinct and never reserved, connections opened equal closed plus active, the global model-drop count is the sum of the nodes', and a live bound peer is its node's current peer |
| HubRouting.LookupIsOwner | vbt_medium.c:290-300 | the slot search is a lookup in a map from addresses to nodes |
| HubRouting.AddAddrIsMapUpdate | vbt_medium.c:302-326 | hearing a node use an address is one update of that map, or a removal when the node's table is full |
| HubRouting.LearnedIff | vbt_medium.c:302-326 | a sender becomes findable under its address if and only if it held it or had a free slot of eight |
| HubRouting.FindConnIsRoute | vbt_medium.c:340-347 | the connection search is a lookup in a map from Access Addresses to endpoint pairs |
| HubRouting.DropNodeIsWithout | vbt_medium.c:404-413 | dropping a node removes from that map exactly the routes that name it |
| HubRouting.StepTracks | vbt_medium.c:369-413 | every event changes the routes exactly as its trace says |
| HubRouting.RoutesAreHistory | vbt_medium.c:369-413 | in every reachable state the connection array is the history of CONNECT_INDs and departures, replayed |
| HubRouting.IgnoredIff | vbt_medium.c:349-366 | a well-formed CONNECT_IND is ignored if and only if all 512 entries are active and none is for its Access Address |
| HubTraffic.IterateIsVerdicts | vbt_medium.c:648-679 | a loop that closes peers while it runs does what one without any state would |
| HubTraffic.IterateCloses | vbt_medium.c:648-679 | afterwards exactly the selected peers whose write failed are closed |
| HubTraffic.BindExactIff | vbt_medium.c:585-603 | a hello keeps peer and node indices inverse if and only if the socket is unbound, already bound to that node, or the hello is ignored |
| HubTraffic.SecondHelloBreaks | vbt_medium.c:585-603 | a second hello under a new name always breaks them |
| HubTraffic.ReplacedPeerHarmless | vbt_medium.c:497-521 | closing a socket whose node has moved to another touches neither the node nor its connections |
| HubTraffic.ReachableExact | vbt_medium.c:585-603 | with one hello a socket, peer and node indices are exact inverses in every reachable state |
| HubSafety.StepData | vbt_medium.c:681-718 | a data PDU goes to a bridge, or to the socket of a node that a route of its Access Address names, before anything but taps is served |
| HubSafety.BoundSince | vbt_medium.c:585-603 | a socket bound to a node has greeted under its name and been neither closed nor replaced since |
| HubSafety.RouteOrigin | vbt_medium.c:369-413 | a route was set by the latest CONNECT_IND for it, and neither end has gone away since |
| HubSafety.DataReachesOnlyEndpoints | vbt_medium.c:681-718 | over every run a data PDU is put on the way only to bridges and to a socket that greeted as a node n, is still n's, and n sent the latest CONNECT_IND for the Access Address or held the address it named, and neither end has lost its socket since; a socket in a reused slot gets nothing before it greets, and nobody gets anything after an end has left, without a new CONNECT_IND |
| HubSafety.ObservedIsTruthful | vbt_medium.c:369-401 | every CONNECT_IND in the trace of a run names the node that sent it then and the node that held the advertiser's address then |
| HubTraffic.AdvertisingOutcomes | vbt_medium.c:654-679 | each other listener gets exactly one of delivered, model-dropped, backlog-dropped or closed; each tap one copy; the sender none |
| HubTraffic.AdvertisingServed | vbt_medium.c:654-679 | told by the entry of one other open socket alone: a monitor is tapped, a bridge offered the frame, a socket with a node (0 or more) offered it with its RSSI or loses it to the model, any other gets nothing; all exactly once |
| HubTraffic.DataServed | vbt_medium.c:681-718 | the same for a data frame, where of the sockets with a node only the one at the other end of the route is served |
| HubTraffic.OtherServed | vbt_medium.c:641-652 | a frame of another class is shown to the monitors only |
| HubTraffic.ExpiredLost | vbt_medium.c:632-639 | a frame from a bridge whose TTL is 0 changes nothing |
| HubService.JoinTakesFreeSlot | vbt_medium.c:816-839 | a new socket gets a slot that was closed, or one more, and disturbs nobody; it is refused if and only if 300 are open |
| HubService.GreetingBinds | vbt_medium.c:585-603 | a greeting binds its socket to the node of that name, old or new, unbinds the former socket of that node and changes nothing else; it is ignored if and only if the name is new and 300 are taken |
| HubService.MonitorTaps | vbt_medium.c:727-760 | a monitor's greeting makes its socket a tap and changes nothing else |
| HubService.LeavingFrees | vbt_medium.c:497-521 | a socket that leaves blanks its slot, takes its node offline and ends exactly the routes that name the node |
| HubService.FrameCloses | vbt_medium.c:610-623 | a frame closes exactly the sockets to which its trace shows a failed write and leaves the entries of all others |
| HubService.SocketStays | vbt_medium.c:497-521 | an open socket's entry changes only when it greets, leaves, fails or is replaced by another greeting under its node's name |
| HubService.FrameTeaches | vbt_medium.c:302-326 | after a frame its sender's node holds the address the frame gives, if it held it or held fewer than eight, no other node does, and all other holdings are as before |
| HubService.RequestRecorded | vbt_medium.c:369-401 | an advertising frame records a connection if and only if it is a whole CONNECT_IND with an unreserved Access Address and there is an entry for that or room |
| HubService.GreetedHearsAll | vbt_medium.c:654-679 | over every run a socket that has greeted gets every advertising frame of another socket exactly once, or loses it to the model, until something ends it |
| HubService.MonitorSeesAll | vbt_medium.c:641-652 | over every run a socket that has greeted as a monitor is shown every frame of another socket exactly once, until something ends it |
| HubStats.CountersAreHistory | vbt_medium.c:610-679 | over every run each counter of the hub and of its nodes is the number of trace entries, or of events, that it counts |
| HubStats.PdusCounted | vbt_medium.c:694-700 | a data frame adds one to the PDUs of the connection of its Access Address, and to those of no other |
| HubTraffic.DataLog | vbt_medium.c:681-718 | the complete trace of one data PDU: taps, the opposite endpoint if online, the bridges |
| HubTraffic.DataOutcomes | vbt_medium.c:681-718 | each tap gets one copy, each other bridge and the socket of the routed node exactly one verdict, and nobody else anything |
| HubTraffic.SenderLostIff | vbt_medium.c:701-708 | handling a frame closes the socket it came from if and only if it is a data PDU whose route leads from its node back to that node, in range, and the write fails |
| HubSafety.SenderLostOrigin | vbt_medium.c:369-401 | over every run that happens only after the node sent a CONNECT_IND for that Access Address naming an address it held itself |
| Isolation.RouteIsolated | vbt_medium.c:369-413 | an event leaves a route as it was, unless its trace shows a CONNECT_IND for it or the loss of an end |
| Isolation.TransitRouteStays | vbt_medium.c:404-413 | a route that names no local node stays for the rest of every run without a CONNECT_IND for it |
| Isolation.NodeStays | vbt_medium.c:497-521 | an event takes a node offline only if its trace says so |
| Isolation.ConnectionsIsolated | vbt_medium.c:625-720 | any event at any hub of a network keeps any connection up, unless its trace concerns that connection |
| Isolation.EventIsDataMove | vbt_medium.c:625-720 | so such an event is one that the journeys of data PDUs allow for |
| Flood.TakeInv | vbt_medium.c:632-639 | copies under way and taken in are always the walks that the TTL lets exist, none twice |
| Flood.QuietMeansComplete | vbt_medium.c:632-639 | when nothing is under way, exactly the walks of at most nine links were taken in |
| Flood.TakePart | vbt_medium.c:632-639 | when copies are lost on the way, what remains is a part of that |
| Flood.WalkUnique | vbt_medium.c:632-639 | without cycles at most one walk leads from hub to hub |
| Flood.OneWalk | vbt_medium.c:632-639 | without cycles a hub in reach is reached by exactly one walk, and the origin by none |
| Network.HandleTrunks | vbt_medium.c:654-718 | whatever fails, all that a trace says of a bridge other than the sender is one offer of an advertising or data frame, and nothing for other frames or for the sender |
| Network.HandleEmits | vbt_medium.c:654-718 | copies leave through other bridges only, at most once each, with the TTL stamped; over reliable links through all of them |
| Network.LaunchTracks | vbt_medium.c:625-720 | a frame sent at a hub starts the abstract flood |
| Network.HopTracks | vbt_medium.c:632-639 | over reliable links a copy arriving at a hub is exactly one step of the abstract flood |
| Decay.HopAges | vbt_medium.c:632-639 | whatever fails, an arriving copy is one walk not taken in before, and every copy's TTL tells the links it has crossed |
| Decay.HopDecays | vbt_medium.c:632-639 | whatever fails, each hop at a hub strictly lowers the weight of the copies under way, and each copy it adds has a smaller TTL |
| Decay.HopSane | vbt_medium.c:625-720 | whatever fails, every hub keeps its invariant and its bridge sockets stay those of the wiring |
| Decay.FloodEnds | vbt_medium.c:632-639 | in any network of hubs, loops included, in every order and whatever fails: a flood is over after at most d*(d+1)^8 hops, d bounding the bridges of a hub, and no copy crosses more than nine links |
| Decay.FloodGoesOn | vbt_medium.c:632-639 | while a copy is under way another hop can be made |
| Link.DataReceipts | vbt_medium.c:681-718 | at one hub a data PDU is received by nobody but the routed node, at most once, and over reliable links by that one if it is online |
| Link.CarriedAims | vbt_medium.c:701-706 | at every hub a connection that is up sends either end's PDUs to the other end and to nobody else |
| Link.DataJourneyInv | vbt_medium.c:681-718 | the invariant of a data PDU under way, over every interleaving |
| Link.OncePerWalk | vbt_medium.c:625-718 | in any network, loops included, a data PDU reaches a node once for the local delivery and once for every walk of at most eight links to a hub that routes it to that node; at no moment more often |
| Link.ExactlyOnceIff | vbt_medium.c:625-718 | in any network, for either direction of a connection that is up: a PDU reaches the far end exactly once and nobody else if and only if one walk of at most eight links leads there, or it is the same hub, and none leads back; never twice nor elsewhere if and only if at most one leads there and none back |
| Link.ExactlyOnce | vbt_medium.c:625-718 | in an acyclic network a data PDU never reaches another node nor the far end twice, and in the end has reached it exactly once, if at most eight bridges lie between, and else not at all |
| Link.LinkDelivers | vbt_medium.c:625-718 | either end of a connection that is up can send a PDU, and its journey comes to rest |
| Loss.HopLosesAims | vbt_medium.c:681-718 | whatever fails at a hop, hubs route a PDU where they did or nowhere |
| Loss.NeverMore | vbt_medium.c:681-718 | whatever fails, in any network no node gets a data PDU more often than if nothing failed |
| Loss.AtMostOnce | vbt_medium.c:681-718 | whatever fails, a data PDU of a connection reaches nobody but the far end, and that at most once, if at most one walk leads there and none back |
| Loss.AtMostOnceIff | vbt_medium.c:681-718 | and on a connection that is up that holds of all runs only then |
| Connect.ConnectJourneyInv | vbt_medium.c:369-401 | the invariant of a CONNECT_IND under way, over every interleaving, in any network |
| Connect.RoutesAfterFlood | vbt_medium.c:369-401 | a hub with room routes the new address if and only if it is within eight bridges, one without only if; the initiator's hub still knows the initiator if and only if no short bridge loop leads back to it |
| Connect.Completes | vbt_medium.c:632-639 | every request under way can come to rest |
| Connect.LeadsAfterFlood | vbt_medium.c:696-698 | to whom each hub then sends the PDUs of each sender, cycles included |
| Connect.LoopDeafensInitiator | vbt_medium.c:696-715 | with such a loop the initiator gets nothing from anybody, while the advertiser gets every PDU, its own included, once for every walk to its hub |
| Connect.EstablishedIff | vbt_medium.c:369-401 | in any network a flooded CONNECT_IND sets its connection up if and only if no bridge loop of at most eight links leads back to the initiator's hub and the advertiser's hub is in reach; hubs between the two need no room for it |
| Framing.Be32RoundTrip | vbt_controller.c:89-112 | the length prefix reads back, and its first octet is the highest |
| Framing.PrefixDecodes | vbt_medium.c:765-811 | what is taken off a prefix of the stream is a prefix of the messages sent |
| Framing.SplitUnique | vbt_medium.c:765-811 | a stream splits in only one way into whole messages and a partial one, so chunking does not matter |
| Framing.NeverOversized | vbt_medium.c:782-787 | a stream of messages never announces an oversized one |
| Framing.EndToEnd | vbt_medium.c:525-811 | the messages dispatched are the first of those accepted, in order and whole, and all of them once all is written and read |
| Channel.ClosedEndToEnd | vbt_medium.c:525-560 | and on a socket that failed in the middle of a message the receiver still has dispatched accepted messages only |
| Channel.Outbox.WriteSome | vbt_medium.c:531-542 | takes exactly as much as the socket lets it before a write would block or fails, and fails if and only if a hard error comes first |
| Channel.Outbox.Send | vbt_medium.c:525-560 | on an empty backlog what the socket takes is written and the rest queued, and the peer closed if and only if a hard error comes first or there is no memory; behind a backlog the message is queued whole or, if and only if it does not fit, dropped whole; written plus backlog are the accepted messages |
| Channel.Outbox.Enqueue | vbt_medium.c:544-559 | the bytes are queued behind the backlog if and only if they fit, else nothing is queued and the drop counted |
| Channel.Outbox.SendRest | vbt_medium.c:544-559 | a message that was partly written always fits the backlog: a drop never tears one |
| Channel.Outbox.Flush | vbt_medium.c:562-580 | moves as many bytes to the socket as it takes, loses none, and closes the peer if and only if a hard error comes first |
| Channel.Outbox.ShiftOut | vbt_medium.c:562-580 | the bytes written leave the front of the backlog and the others move down |
| Channel.Inbox.Consume | vbt_medium.c:807-809 | a message taken off leaves the front of the buffer and the rest moves down |
| Channel.Inbox.Drain | vbt_medium.c:776-810 | takes every whole message off the buffer, in order, and leaves a partial or an oversized one |
| Channel.Inbox.PeerReadable | vbt_medium.c:765-811 | after every read the buffer has room again, or the peer is to be closed |
| Channel.Inbox.MediumReadable | vbt_controller.c:144-180 | the controller's loop empties the buffer on an oversized announcement and stays connected, which never happens on a stream of fitting messages |
| Lcg.GeometricHalves | vbt_ll.c:225-229 | the sum of n powers of the multiplier has exactly the factors of two of n |
| Lcg.FullPeriod | vbt_ll.c:225-229 | the low k bits of two draws agree if and only if the draws are a multiple of 2^k apart |
| Lcg.AccessAddrShape | vbt_ll.c:1030-1031 | an Access Address is never 0 nor the advertising one, has bit 22 set and bit 31 clear, and keeps the draw's other bits |
| Lcg.AccessAddrsDistinct | vbt_ll.c:225-229 | two equal Access Addresses from one seed are a multiple of 2^22 draws apart |
| Lcg.DrawsAgreeIff | vbt_ll.c:225-229 | two generators that have drawn equally often agree in their low k bits if and only if their seeds do |
| Hci.StepOpens | vbt_ll.c:1025-1102 | a step opens the connection that it announces to the host, and no other; every other live entry keeps its Access Address, role and peer |
| AccessAddrs.RunDraws | vbt_ll.c:873-880 | over every run the generator stands at the draw that LE Rand and the connections made account for |
| AccessAddrs.MadeApart | vbt_ll.c:1030-1031 | two connections a controller makes as central in one run have different unreserved Access Addresses, if fewer than 2^22 draws lie between |
| AccessAddrs.LiveAddrsDistinct | vbt_ll.c:1025-1041 | in every reachable table, so have any two live connections made as central |
| AccessAddrs.DrawsCollideIff | vbt_ll.c:982-984 | when two controllers that have drawn equally often collide: exact condition on the octets of their addresses |
| AccessAddrs.NeighboursDiffer | vbt_ll.c:982-984 | controllers whose addresses differ in one octet draw different Access Addresses at every equal draw |
| AccessAddrs.SameSeed | vbt_ll.c:982-984 | two addresses whose controllers draw the same for ever |
| Controller.BleController.constructor | vbt_ll.c:974-986 | a fresh controller with its generator seeded from the address |
| Controller.BleController.ConnByHandle | vbt_ll.c:195-201 | returns the first active slot with the handle |
| Controller.BleController.ConnByAa | vbt_ll.c:203-209 | returns the first active slot with the Access Address |
| Controller.BleController.ConnAlloc | vbt_ll.c:211-221 | takes and clears the first idle slot and gives it the handle of its place |
| Controller.BleController.HandleLlControl | vbt_ll.c:561-625 | a control PDU does to state, host and medium what the model's step says |
| Controller.BleController.HandleEncryption | vbt_ll.c:586-619 | the same for the three PDUs of the encryption handshake |
| Controller.BleController.HandleCreateConn | vbt_ll.c:630-641 | the same for LE Create Connection |
| Controller.BleController.DoRegisterCommand | vbt_ll.c:768-832 | the same for the commands that only set registers |
| Controller.BleController.DoSetData | vbt_ll.c:786-800 | the same for the commands that set advertising and scan response data |
| Controller.BleController.DoReset | vbt_ll.c:652-657 | the same for Reset: the table is cleared, advertising and scanning stop |
| Controller.BleController.DoEnable | vbt_ll.c:802-822 | the same for enabling and disabling advertising and scanning |
| Controller.BleController.DoLinkQuery | vbt_ll.c:834-871 | the same for the three requests about a link that are answered at once |
| Controller.BleController.DoStartEncryption | vbt_ll.c:893-907 | the same for LE Start Encryption |
| Controller.BleController.DoLtkReply | vbt_ll.c:909-921 | the same for the key reply |
| Controller.BleController.DoDisconnect | vbt_ll.c:930-944 | the same for Disconnect |
| Controller.BleController.DispatchCommand | vbt_ll.c:643-969 | the same for every command packet |
| Controller.BleController.HandleAclFromHost | vbt_ll.c:532-556 | the same for an ACL packet |
| Controller.BleController.HciFromHost | vbt_ll.c:992-1000 | the same for any packet from the host |
| Controller.BleController.OnTarget | vbt_ll.c:1025-1041 | the same for the initiator that hears its target |
| Controller.BleController.OnConnectInd | vbt_ll.c:1085-1102 | the same for an advertiser that is connected to |
| Controller.BleController.OnAdvertisement | vbt_ll.c:1014-1065 | the same for an advertisement: connect to it, report it, ask for more |
| Controller.BleController.OnAdvPdu | vbt_ll.c:1007-1106 | the same for any advertising-channel PDU |
| Controller.BleController.OnDataPdu | vbt_ll.c:1108-1121 | the same for any data-channel PDU |
| Controller.BleController.PduFromMedium | vbt_ll.c:1002-1122 | the same for any PDU from the medium |
| Controller.BleController.TickAt | vbt_ll.c:1124-1133 | the same for the periodic tick, its three advertisements carrying the data set |
| Hci.StepTold | vbt_ll.c:561-1122 | every step tells the host of every change to its table of live connections |
| Hci.EventsTellTheTable | vbt_ll.c:211-221 | over every run the event stream replays to exactly the live table, and handles are 0x40 plus the slot |
| Hci.OneReply | vbt_ll.c:643-969 | every command with a whole header is answered exactly once, first, and by its opcode; nothing else is answered |
| Settings.CommandReplies | vbt_ll.c:643-969 | what every command tells the host, event by event: success unless the opcode is unknown or LE Create Connection is too short, and the outcome of those about a connection |
| Settings.RegistersAreHistory | vbt_ll.c:768-832 | over every run the connection target, addresses, types, advertising and scan response data are the octets of the last command that carried them |
| Settings.StepSwitches | vbt_ll.c:802-832 | what every input does to mode, advertising, scanning and the advertising clock |
| Settings.TickShows | vbt_ll.c:421-442 | a tick shows kind, address and data set three times if and only if it is due |
| Settings.ScanShows | vbt_ll.c:445-459 | a scan request is answered, with the scan response data, if and only if it names this advertiser |
| Settings.ScannerAsks | vbt_ll.c:1053-1065 | an active scanner, and only that, asks a scannable advertiser for more, by its address |
| Settings.SetThenReported | vbt_ll.c:786-792 | over every run what an advertiser's host set last is what any scanner that hears it tells its host |
| Settings.SetThenScanned | vbt_ll.c:794-800 | the same for scan response data |
| Settings.ReportsIff | vbt_ll.c:1014-1084 | a host is told of an advertisement or scan response if and only if it scans and the PDU holds an address, its target apart |
| Settings.DeafToTheAir | vbt_ll.c:1002-1013 | a controller that neither scans, advertises nor initiates ignores the air; frames of other classes are ignored by all |
| Settings.FramesAreOwn | vbt_ll.c:380-415 | every data frame sent carries a live connection's Access Address and the own address of its role |
| Setup.InitiatesIff | vbt_ll.c:1025-1041 | an initiator announces a connection if and only if it hears a connectable advertisement of its target and has an idle slot, and then asks for it with a fresh Access Address |
| Setup.ConnectsToTarget | vbt_ll.c:630-641 | over every run it is the advertiser whose six octets the last LE Create Connection carried, and no other |
| Setup.AcceptsIff | vbt_ll.c:1085-1102 | an advertiser accepts a request if and only if it advertises, the request is whole and names it, and a slot is idle |
| Setup.TheyConnect | vbt_ll.c:1025-1102 | an advertiser that is due and an initiator of its address come to share a connection: up at both ends, on one Access Address, with each other's addresses, as Duo.Begins asks |
| Setup.FreshControllersConnect | vbt_ll.c:974-1102 | two fresh controllers do, after one command each |
| PeerLink.StepOffLink | vbt_ll.c:992-1133 | what any input that is not a PDU of a link does to that link: the PDUs it puts on it octet for octet, when it ends it, and what the host is told |
| PeerLink.StepArrives | vbt_ll.c:1108-1121 | what a PDU of a link does when it arrives: the answer octet for octet, and the events |
| PeerLink.RandEdivCarried | vbt_ll.c:893-907 | the Rand and EDIV that one host gives are those the other host is asked a key for |
| Duo.RunInv | vbt_ll.c:561-625 | the joint invariant of two ends and what is under way between them, over every interleaving |
| Duo.EncryptionAgrees | vbt_ll.c:586-619 | no end is encrypted without a key reply; if only one is, the confirmation is under way; on a quiet link both are encrypted if a key reply was given and neither if none was; each host is told exactly once |
| Duo.EndsAgree | vbt_ll.c:561-575 | if no end was reset, an end that outlives the other has the farewell under way, and on a quiet link both are up or neither |
| Duo.ResetForgets | vbt_ll.c:652-657 | a reset takes its end down and leaves the other up, with nothing under way |
| Duo.ReasonCarried | vbt_ll.c:930-944 | a disconnection takes its end down, sends one PDU, and when that arrives the far end goes down and its host is told the reason given |
| Duo.PayloadsInOrder | vbt_ll.c:517-556 | payloads delivered are always the beginning of those handed down, octet for octet; credits equal packets accepted |
| Duo.OfferedWhole | vbt_ll.c:532-556 | a packet is handed down whole if and only if it has 1 to 251 octets |
| Provenance.LeRoundTrip | vbt_ll.c:484-512 | an address written in octets reads back |
| Provenance.LeSpells | vbt_ll.c:484-512 | six octets spell their address with the first one lowest |
| Provenance.ConnectPduRoundTrip | vbt_ll.c:484-512 | peripheral and hub read back from a CONNECT_IND what the central put in |
| Provenance.StepKeeps | vbt_ll.c:1025-1101 | no step of any controller breaks the origin of connections |
| Provenance.ShownIsReported | vbt_ll.c:421-442 | an advertising PDU reads back with its kind, address and data |
| Provenance.AdvertisementReported | vbt_ll.c:1014-1065 | what a host set as advertising data is what a scanner's host is told, octet for octet, the size of the report array apart |
| Provenance.ConnectionsHaveCentrals | vbt_ll.c:1085-1102 | among these controllers, on a channel that loses, repeats and reorders, every connection a peripheral accepted, and every live entry of every table, was made by a central with the same Access Address and the addresses crosswise, and none accepts more often than it was told to advertise |
| Ring.IovFromBuf | vbt_vhost_user.c:128-139 | fills the segments in order and returns how much was copied |
| Ring.IovToBuf | vbt_vhost_user.c:115-126 | collects the segments up to the size of the buffer |
| Ring.ScatterFills | vbt_vhost_user.c:128-139 | scattering loses nothing but what there is no room for |
| Ring.PendingRing.constructor | src/vbt_virtio.c:97-98 | the ring starts empty |
| Ring.PendingRing.FlushPending | src/vbt_virtio.c:109-125 | drains the simple queue while there are packets and buffers |
| Ring.PendingRing.QueueToGuest | src/vbt_virtio.c:127-140 | the wrapping ring takes a packet if and only if it has at most 556 octets and fewer than 256 wait, and is else unchanged |
| Ring.PendingRing.HandleRx | src/vbt_virtio.c:200-206 | fresh guest buffers drain the queue |
| Ring.RunBalanced | src/vbt_virtio.c:109-140 | over every run the k-th buffer came back with the k-th accepted packet |
| Ring.AcceptedIff | src/vbt_virtio.c:127-140 | over every run a packet is taken in if and only if it has at most 556 octets and fewer than 256 wait |
| Ring.PacketsInOrder | src/vbt_virtio.c:109-140 | over every run, across counter wrap-around: the guest has got the first packets taken in, as many as there were buffers or all, in order; the others wait, at most 256 |
| AdData.ParseAdvData | scripts/medium_dump.py:110-132 | the walk over AD structures computes the reference parse |
| AdData.ParseEncoded | scripts/medium_dump.py:110-132 | encoded structures parse back, whatever follows |
| AdData.ParseReadsPrefix | scripts/medium_dump.py:110-132 | on any octets the walk reads off the longest run of whole structures and stops |
| AdData.PackPrimary | scripts/ble_fleet.py:131-134 | keeps each primary structure that still fits in 31 octets |
| AdData.PrimaryIff | scripts/ble_fleet.py:131-134 | the primary structures kept are kept in order, and one is left out if and only if those kept before it leave no room |
| AdData.PackAds | scripts/ble_fleet.py:128-144 | both packets have at most 31 octets and hold the structures placed there; the rest is counted |
| AdData.PackedParsesBack | scripts/ble_fleet.py:128-144 | the two packets parse back to exactly the structures kept, in order |
| AdData.ExtrasAccounted | scripts/ble_fleet.py:137-143 | of a packing: the extra structures are, as a multiset, those read back behind the primary ones, those read back from the scan response, and as many others as are counted as dropped |
| AdData.LostIffNoRoom | scripts/ble_fleet.py:137-143 | a structure is dropped if and only if neither packet has the room left for it |
| Gatt.HandlesInOrder | scripts/ble_fleet.py:454-483 | handles are given out once each, in order, without a gap |
| Gatt.ValuesFollow | scripts/ble_fleet.py:468-481 | each declaration names the value that follows it, and has a CCCD if and only if it notifies |
| Gatt.ProfileBuilt | scripts/ble_fleet.py:454-483 | every service and characteristic of the profile stands where those before it end, with its UUID, its properties or Read, its value and its security, and a CCCD if it notifies or indicates |
| Gatt.RangesTile | scripts/ble_fleet.py:482-483 | the service ranges tile the handles |
| Gatt.RangesOpen | scripts/ble_fleet.py:455-483 | a range starts at every service declaration, and there only |
| Gatt.ReadByGroup | scripts/ble_fleet.py:542-558 | the reply holds the services in range that have the UUID width of the first |
| Gatt.GroupIsFilter | scripts/ble_fleet.py:542-558 | the reply to any range is, of the services that start in it, those with a UUID as long as the first one's, in order |
| Gatt.GroupFrom | scripts/ble_fleet.py:542-558 | asked from a service on, the reply holds all later services of its width |
| Gatt.DiscoveryCompleteIff | scripts/ble_fleet.py:542-558 | a client's discovery tells every service once, in order, if and only if no service of another width stands before the last of the first's width |
| Gatt.MixedWidthsMiss | scripts/ble_fleet.py:554-555 | of three services the discovery tells the first and the third, never the second |
| GattServer.Device.constructor | scripts/ble_fleet.py:434-483 | the device's database, ranges and CCCD table are those the theorems are about |
| GattServer.Device.BuildGatt | scripts/ble_fleet.py:454-483 | the builder's loops compute the reference database, ranges and CCCD table |
| GattServer.Device.AddService | scripts/ble_fleet.py:455-483 | one service appends its declaration and its characteristics |
| GattServer.Device.AddChar | scripts/ble_fleet.py:459-481 | one characteristic appends declaration, value and, if it notifies, CCCD |
| GattServer.Device.HandleWrite | scripts/ble_fleet.py:602-614 | a write to an attribute of type 0x2902, be it a CCCD or the value of a characteristic of that UUID, stores two octets and subscribes or unsubscribes; any other write changes nothing |
| GattServer.Device.ClearSubscriptions | scripts/ble_fleet.py:684-702 | a connection that begins or ends clears the subscriptions and leaves the database |
| GattServer.Device.NotifyHandles | scripts/ble_fleet.py:518-524 | lists the values whose CCCD is subscribed, in order |
| GattServer.EnablesBits | scripts/ble_fleet.py:607-610 | a write enables if and only if bit 0 or bit 1 of its first octet is set |
| GattServer.SubscribedIff | scripts/ble_fleet.py:602-614 | over every run a CCCD is subscribed if and only if the last write to it in this connection enabled it |
| GattServer.StaleIff | scripts/ble_fleet.py:684-702 | what a CCCD reads and what is subscribed differ if and only if the enabling write came before this connection |
| GattServer.NotifiedIff | scripts/ble_fleet.py:518-524 | a value gets notified if and only if its declaration notifies and its CCCD was last enabled in this connection |
| Witnesses.LoopBreaksConnection | vbt_medium.c:379-391 | two nodes of one hub of a two-bridge loop connect: once quiet, the hub has forgotten the initiator and the connection is not up |
| Witnesses.FarLoopRepeats | vbt_medium.c:625-718 | on a chain of four hubs with a triangle at its end a connection is set up, and yet a PDU of the initiator arrives at least three times and the advertiser hears its own |
| Witnesses.SelfConnection | vbt_medium.c:701-708 | a run in which a node connects to itself and loses its socket by a data PDU of its own |
| Witnesses.EntryRemains | vbt_medium.c:404-413 | a run after which a hub without any socket still holds an active entry |
| Witnesses.TwoHellos | vbt_medium.c:585-603 | a run with two hellos after which two nodes name one socket |
| Witnesses.NinthAddress | vbt_medium.c:302-326 | a node heard under nine addresses is found under the eighth and not under the ninth |
| Witnesses.StaleCccd | scripts/ble_fleet.py:684-702 | a client subscribes and goes: the CCCD reads enabled and nobody is subscribed |

## Left out

- Sockets, poll loops, listeners, reconnection, timers and the QEMU and libvhost-user calls: their outcomes are parameters.
- The propagation model's arithmetic (`vbt_medium.c:449-492`): an arbitrary oracle that drops a frame or gives it an RSSI.
- Link overrides, the text control socket, configuration files and logging.
- Event parameters beyond handle, role, address, reason, status, advertising data, RSSI, Rand and EDIV.
- Local C array bounds in the packet builders: packets are sequences.
- ACL packet-boundary flags: every payload is sent on as a first fragment, and only its octets are followed.
- Node retirement (`vbt_medium.c:506`): its flag is never set, so the node table only grows.
- The order of host events relative to frames sent in one step: each of the two streams keeps its order.
- vbt_vhost_user.c and src/vbt_virtio.c read from the medium as vbt_controller.c does (`Channel.Inbox.MediumReadable`), and vbt_vhost_user.c has its own copy of the ring; one of each is modelled.
- Encryption itself: the code enciphers nothing.
- GATT requests other than Read By Group Type and writes, the ATT MTU, the rendering of parsed advertising data as text, sensor values and the synthesis of standard services.
- Gatt.DiscoveryCompleteIff: is about databases of at most 0xFFFF handles; the code masks larger handles to 16 bits.
- Link.ExactlyOnce: is about networks without bridge cycles and about reliable sockets; the general cases are Link.ExactlyOnceIff and Loss.AtMostOnce.
- Link.OncePerWalk: its last clause is about reliable sockets; Loss.NeverMore is about any.
- Network.HopTracks: is about reliable sockets; Decay.HopAges and Decay.HopDecays are about any.
- Link.ExactlyOnceIff: is about reliable sockets; Loss.AtMostOnceIff is about any.
- Connect.EstablishedIff: requires that no hub already routes the new Access Address, that the two end hubs have room in their tables, and reliable sockets.
- Channel.Inbox.PeerReadable: takes it that dispatching a message leaves the socket open; HubTraffic.SenderLostIff says when it does not, and what the code then does with the buffer is not modelled.
- Provenance.AdvertisementReported: the report array of `vbt_ll.c:467` has 45 octets, which hold a report of at most 30 octets of data; here reports are sequences.
- Controller.BleController.DoSetData: data that is announced longer than the packet is filled up with zeros here; the code copies whatever follows the parameters in memory.
- Controller.BleController.DispatchCommand: the parameters of a Command Complete beyond the status, such as the octets of LE Rand, are not modelled.
- Provenance.ConnectionsHaveCentrals: does not exclude that one central's connection is accepted twice by peripherals with the same address.
- AdData.PackAds: takes encodings of AD structures, as all callers do, not arbitrary octet strings.
