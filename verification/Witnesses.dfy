/** Inputs at which the code does not do what one might expect of it, one for each of the
    conditions that the other modules prove exactly. */
module Witnesses {
  import opened Wire
  import opened HubModel
  import opened HubInvariants
  import opened HubRouting
  import opened HubTraffic
  import opened Flood
  import opened Network
  import opened Decay
  import opened Link
  import opened Connect
  import Isolation
  import LinkLayer
  import Provenance
  import Gatt
  import GattServer

  // ------------------------------------------------------------ hubs to start with

  /** Sockets join one after the other, bridges where `kinds` says so. */
  function Joins(kinds: seq<bool>): seq<Event> {
    seq(|kinds|, i requires 0 <= i < |kinds| => Joined(kinds[i]))
  }

  /** And the first n of them greet, as nodes 1 to n. */
  function Opening(kinds: seq<bool>, n: nat): seq<Event> {
    Joins(kinds) + seq(n, i requires 0 <= i < n => Greeted(i, i + 1, false))
  }

  function Named(n: nat): seq<Node> {
    seq(n, i requires 0 <= i < n => Node(i + 1, [], i, 0, 0, 0))
  }

  function Sockets(kinds: seq<bool>, n: nat): seq<Peer> {
    seq(|kinds|, i requires 0 <= i < |kinds| => Peer(true, kinds[i], false, if i < n then i else -1))
  }

  predicate Plain(kinds: seq<bool>, n: nat) {
    n <= |kinds| <= 10 && forall i :: 0 <= i < n ==> !kinds[i]
  }

  lemma AfterNext(events: seq<Event>, e: Event)
    ensures After(events + [e]).s == Step(After(events).s, e).s
    ensures Disciplined(events) && (e.Greeted? && Live(After(events).s, e.p) ==> Ungreeted(After(events).s, e.p)) ==>
      Disciplined(events + [e])
  {
    hide Step;
    assert (events + [e])[..|events|] == events;
  }

  lemma {:induction false} Joining(kinds: seq<bool>)
    requires |kinds| <= 10
    ensures After(Joins(kinds)).s == EMPTY_HUB.(peers := Sockets(kinds, 0)) && Disciplined(Joins(kinds))
  {
    hide Step, After, Disciplined;
    if kinds == [] {
      NoEvents();
      assert Joins(kinds) == [] && Sockets(kinds, 0) == [];
    } else {
      var k := |kinds| - 1;
      var front, bridge := kinds[..k], kinds[k];
      Joining(front);
      AfterNext(Joins(front), Joined(bridge));
      assert Joins(kinds) == Joins(front) + [Joined(bridge)];
      JoinsLast(EMPTY_HUB.(peers := Sockets(front, 0)), bridge);
      assert Sockets(kinds, 0) == Sockets(front, 0) + [Peer(true, bridge, false, -1)];
    }
  }

  lemma NoEvents()
    ensures After([]).s == EMPTY_HUB && Disciplined([])
  {
  }

  lemma JoinsLast(s: HubState, bridge: bool)
    requires InRange(s) && |s.peers| < 10 && forall i :: 0 <= i < |s.peers| ==> s.peers[i].open
    ensures Step(s, Joined(bridge)).s == s.(peers := s.peers + [Peer(true, bridge, false, -1)])
  {
  }

  lemma Greeting(s: HubState, p: nat, nid: NodeId)
    requires InRange(s) && p < |s.peers| && s.peers[p].open && |s.nodes| < MAX_NODES
    requires forall n :: 0 <= n < |s.nodes| ==> s.nodes[n].id != nid
    ensures Step(s, Greeted(p, nid, false)).s
         == s.(nodes := s.nodes + [Node(nid, [], p, 0, 0, 0)], peers := s.peers[p := s.peers[p].(node := |s.nodes|)])
  {
    var n := |s.nodes|;
    var named := s.nodes + [Node(nid, [], -1, 0, 0, 0)];
    assert HubModel.Named(s.nodes, nid) == named;
    assert FirstNamed(named, nid, 0) == n by {
      assert named[n].id == nid;
    }
    assert named[n := Node(nid, [], p, 0, 0, 0)] == s.nodes + [Node(nid, [], p, 0, 0, 0)];
  }

  /** The state such an opening leads to. */
  function Opened(kinds: seq<bool>, n: nat): HubState {
    EMPTY_HUB.(nodes := Named(n), peers := Sockets(kinds, n))
  }

  lemma {:induction false} OpeningState(kinds: seq<bool>, n: nat)
    requires Plain(kinds, n)
    ensures After(Opening(kinds, n)).s == Opened(kinds, n) && Disciplined(Opening(kinds, n))
  {
    hide Step, After, Disciplined;
    if n == 0 {
      Joining(kinds);
      assert Opening(kinds, 0) == Joins(kinds) && Named(0) == [];
    } else {
      var k := n - 1;
      OpeningState(kinds, k);
      AfterNext(Opening(kinds, k), Greeted(k, n, false));
      assert Opening(kinds, n) == Opening(kinds, k) + [Greeted(k, n, false)];
      Greeting(Opened(kinds, k), k, n);
      assert Named(n) == Named(k) + [Node(n, [], k, 0, 0, 0)];
      assert Sockets(kinds, n) == Sockets(kinds, k)[k := Sockets(kinds, k)[k].(node := k)];
    }
  }

  /** A hub whose bridge sockets are the ports of the wiring there. */
  ghost predicate Fits(wire: Wiring, h: HubId, kinds: seq<bool>) {
    forall i: nat :: Port(h, i) in wire <==> i < |kinds| && kinds[i]
  }

  lemma OpenedOk(wire: Wiring, h: HubId, kinds: seq<bool>, n: nat)
    requires Plain(kinds, n) && Fits(wire, h, kinds)
    ensures HubOk(wire, h, Opened(kinds, n))
  {
    hide HubInvariants.Inv, Exact, After, Disciplined;
    OpeningState(kinds, n);
    ReachableInv(Opening(kinds, n));
    ReachableExact(Opening(kinds, n));
  }

  lemma OpenedBlank(kinds: seq<bool>, n: nat, addr: Addr, aa: nat)
    ensures var s := Opened(kinds, n); FindByAddr(s.nodes, addr) == -1 && Routes(s.conns) == map[] && Room(s.conns, aa)
  {
  }

  // ---------------------------------------------------------------- an advertiser

  const BEACON: seq<Byte> := [0, 0]

  function BeaconHdr(addr: Addr): Hdr {
    Hdr(ADV_ACCESS_ADDR, 0, addr, LL_ADV, -40)
  }

  /** The socket advertises under an address: the hub then finds its node there, and is
      otherwise as before. */
  function Heralded(s: HubState, src: nat, addr: Addr): HubState
    requires InRange(s) && src < |s.peers|
  {
    Forward(s, src, BeaconHdr(addr), BEACON, CLEAR).s
  }

  lemma HeraldedOk(wire: Wiring, h: HubId, s: HubState, src: nat, addr: Addr)
    requires HubOk(wire, h, s) && Live(s, src) && s.peers[src].node >= 0 && addr != ZERO_ADDR
    requires |s.nodes[s.peers[src].node].addrs| < MAX_ADDRS_PER_NODE && Routes(s.conns) == map[]
    ensures var r := Heralded(s, src, addr);
      && HubOk(wire, h, r) && r.peers == s.peers && |r.nodes| == |s.nodes|
      && FindByAddr(r.nodes, addr) == s.peers[src].node && Routes(r.conns) == map[]
      && (forall n :: 0 <= n < |s.nodes| && s.nodes[n].peer >= 0 ==> r.nodes[n].peer == s.nodes[n].peer)
  {
    hide Forward, Handle, Routes;
    var r, a, hdr := Heralded(s, src, addr), s.peers[src].node, BeaconHdr(addr).(ttl := FRESH_TTL);
    ForwardKeepsHub(wire, h, s, src, BeaconHdr(addr), BEACON, CLEAR);
    assert !s.peers[src].bridge;
    ForwardPlain(s, src, BeaconHdr(addr), BEACON, CLEAR);
    BeaconLearned(s, src, a, hdr);
    BeaconRoutes(s, src, a, hdr);
    forall n | 0 <= n < |s.nodes| && s.nodes[n].peer >= 0 ensures r.nodes[n].peer == s.nodes[n].peer {
      assert r.peers[s.nodes[n].peer].node == n;
    }
  }

  lemma BeaconLearned(s: HubState, src: nat, a: int, hdr: Hdr)
    requires HubInvariants.Inv(s) && Exact(s) && 0 <= a < |s.nodes| && hdr.llType == LL_ADV && hdr.txAddr != ZERO_ADDR
    requires |s.nodes[a].addrs| < MAX_ADDRS_PER_NODE
    ensures FindByAddr(Handle(s, src, a, hdr, BEACON, CLEAR).s.nodes, hdr.txAddr) == a
  {
    hide Overhear, Iterate, AddAddr, FindByAddr, NodeTable;
    var t := Overhear(s, src, a, hdr, CLEAR).s;
    var heard := s.nodes[a := s.nodes[a].(txPdus := s.nodes[a].txPdus + 1)];
    OverhearQuiet(s, src, a, hdr, CLEAR);
    NodeTableSame(s.nodes, heard, s.stats.droppedModel);
    LearnedIff(heard, a, hdr.txAddr);
    FanOwner(Fan, t, src, hdr, CLEAR, 0, hdr.txAddr);
  }

  lemma BeaconRoutes(s: HubState, src: nat, a: int, hdr: Hdr)
    requires HubInvariants.Inv(s) && Exact(s) && 0 <= a < |s.nodes| && hdr.llType == LL_ADV
    ensures Routes(Handle(s, src, a, hdr, BEACON, CLEAR).s.conns) == Routes(s.conns)
  {
    hide Overhear, Broadcast, Routes;
    var t := Overhear(s, src, a, hdr, CLEAR).s;
    OverhearKeeps(s, src, a, hdr, CLEAR);
    OverhearQuiet(s, src, a, hdr, CLEAR);
    BroadcastRoutes(t, src, a, hdr, BEACON, CLEAR);
  }

  lemma NoRouteHasRoom(s: HubState, aa: nat)
    requires HubInvariants.Inv(s) && Routes(s.conns) == map[]
    ensures Room(s.conns, aa)
  {
    var conns := s.conns;
    if conns != [] {
      RoutesCarried(conns, conns[0].aa);
      assert Carries(conns[0], conns[0].aa) == conns[0].active;
      assert FirstFree(conns, 0) == 0;
    }
  }

  // ------------------------------------------------------------ a second greeting

  /** One socket greets twice, under two names. */
  const TWO_HELLOS := Opening([false], 1) + [Greeted(0, 2, false)]

  /** Both nodes then name the socket as theirs. */
  lemma TwoHellos()
    ensures After(TWO_HELLOS).s.nodes == [Node(1, [], 0, 0, 0, 0), Node(2, [], 0, 0, 0, 0)]
    ensures After(TWO_HELLOS).s.peers == [Peer(true, false, false, 1)]
    ensures !Exact(After(TWO_HELLOS).s)
  {
    hide Step, After;
    var one := Opened([false], 1);
    OpeningState([false], 1);
    assert one.nodes == [Node(1, [], 0, 0, 0, 0)] && one.peers == [Peer(true, false, false, 0)];
    AfterNext(Opening([false], 1), Greeted(0, 2, false));
    Greeting(one, 0, 2);
    NotExact(After(TWO_HELLOS).s);
  }

  lemma NotExact(s: HubState)
    requires InRange(s) && |s.nodes| == 2 && s.nodes[0].peer == 0 && |s.peers| == 1 && s.peers[0].node == 1
    ensures !Exact(s)
  {
    assert s.nodes[0].peer == 0 && s.peers[0].node != 0;
  }

  // ------------------------------------------------------------- a ninth address

  /** The nodes after node 0 has been heard using each of the addresses in turn. */
  function Hears(nodes: seq<Node>, addrs: seq<Addr>): seq<Node>
    requires nodes != []
    decreases addrs
  {
    if addrs == [] then nodes
    else
      var before := Hears(nodes, addrs[..|addrs| - 1]);
      if before == [] then [] else AddAddr(before, 0, addrs[|addrs| - 1])
  }

  lemma {:induction false} HearsAll(node: Node, addrs: seq<Addr>)
    requires node.addrs == [] && NoRepeats(addrs) && ZERO_ADDR !in addrs && |addrs| <= MAX_ADDRS_PER_NODE
    ensures Hears([node], addrs) == [node.(addrs := addrs)]
  {
    if addrs != [] {
      var n := |addrs| - 1;
      HearsAll(node, addrs[..n]);
      var before := [node.(addrs := addrs[..n])];
      assert SweepOthers(before, 0, addrs[n]) == before;
      assert addrs[..n] + [addrs[n]] == addrs;
    }
  }

  /** A node that uses nine addresses is found under the eighth and not under the ninth. */
  lemma NinthAddress()
    ensures var nodes := Hears([Node(1, [], 0, 0, 0, 0)], [1, 2, 3, 4, 5, 6, 7, 8, 9]);
      FindByAddr(nodes, 8) == 0 && FindByAddr(nodes, 9) == -1
  {
    hide AddAddr;
    var node, eight := Node(1, [], 0, 0, 0, 0), [1, 2, 3, 4, 5, 6, 7, 8];
    HearsAll(node, eight);
    assert [1, 2, 3, 4, 5, 6, 7, 8, 9][..8] == eight;
    FullNode(node.(addrs := eight), 9);
    assert eight[7] == 8;
  }

  /** A node with eight addresses goes on as before when it is heard under another. */
  lemma FullNode(node: Node, addr: Addr)
    requires |node.addrs| == MAX_ADDRS_PER_NODE && addr !in node.addrs && ZERO_ADDR !in node.addrs
    ensures AddAddr([node], 0, addr) == [node]
    ensures forall x :: FindByAddr([node], x) == if x in node.addrs then 0 else -1
  {
    assert SweepOthers([node], 0, addr) == [node];
  }

  // ----------------------------------------------------------------- a stale CCCD

  /** A heart-rate service with one characteristic that notifies. */
  const HEART_RATE := [Gatt.SvcSpec(Gatt.Short(0x180D), [Gatt.CharSpec(Gatt.Short(0x2A37), {Gatt.Notify})])]

  const STALE := [GattServer.Linked, GattServer.Wrote(4, [1, 0]), GattServer.Terminated]

  /** A client subscribes and goes away: the descriptor still reads as enabled, and nobody
      is subscribed. */
  lemma StaleCccd()
    ensures var db := Gatt.Build(1, HEART_RATE, 1); var s := GattServer.After(db, STALE);
      && GattServer.IsCccd(s.db, 4) && s.db[3].attr.stored == [1, 0] && 4 !in s.subs
      && GattServer.Chosen(GattServer.CccdPairs(db), s.subs) == []
  {
    var db := Gatt.Build(1, HEART_RATE, 1);
    HeartRate();
    Gatt.HandlesInOrder(1, HEART_RATE, 1);
    assert STALE[..2][1] == GattServer.Wrote(4, [1, 0]);
    GattServer.SubscribedIff(db, STALE, 4);
    assert GattServer.LastWrite(STALE[..2], 4) == Some([1, 0]);
    assert GattServer.Stored([1, 0]) == [1, 0];
    var subs := GattServer.After(db, STALE).subs;
    assert subs == {};
    NobodyChosen(GattServer.CccdPairs(db));
  }

  lemma {:induction false} NobodyChosen(pairs: seq<(nat, nat)>)
    ensures GattServer.Chosen(pairs, {}) == []
  {
    if pairs != [] {
      NobodyChosen(pairs[1..]);
    }
  }

  lemma HeartRate()
    ensures var db := Gatt.Build(1, HEART_RATE, 1);
      && |db| == 4 && db[3] == Gatt.Entry(4, Gatt.Cccd([0, 0]))
      && db[0].attr.Primary? && db[1].attr.Declaration? && db[2].attr.Value?
  {
    var c := HEART_RATE[0].chars[0];
    var secure := Gatt.Secure(HEART_RATE[0].uuid, 1);
    assert HEART_RATE[1..] == [] && HEART_RATE[0].chars[1..] == [];
    assert Gatt.CharsEntries(2, HEART_RATE[0].chars, secure) == Gatt.CharEntries(2, c, secure) + [];
    assert Gatt.SvcEntries(1, HEART_RATE[0], 1)
        == [Gatt.Entry(1, Gatt.Primary(HEART_RATE[0].uuid))] + Gatt.CharEntries(2, c, secure);
    assert Gatt.Build(1, HEART_RATE, 1) == Gatt.SvcEntries(1, HEART_RATE[0], 1) + [];
  }

  // ------------------------------------------------------------------- a request

  const REQUEST_HDR := Hdr(ADV_ACCESS_ADDR, 0, 11, LL_ADV, -40)

  /** A node with address 11 wants to connect to the holder of address 22. */
  const REQUEST_PDU: seq<Byte> := LinkLayer.ConnectPdu(11, 0, 22, 0, 5)

  lemma RequestFits(q: Request)
    requires q.aa == 5 && q.adva == 22
    ensures Requests(q, REQUEST_HDR, REQUEST_PDU)
  {
    assert Provenance.Below(11, 6) && Provenance.Below(22, 6) && Provenance.Below(5, 4);
    Provenance.ConnectPduRoundTrip(11, 0, 22, 0, 5);
  }

  // ----------------------------------------------------- a connection with oneself

  const ALONE := Opening([false], 1)
  const SELF_REQUEST := Request(5, 22, 0, 0, map[0 := 0], {0})
  const BROKEN := CLEAR.(send := _ => Failed)

  /** A node advertises, asks to be connected to its own address, and sends a data PDU. */
  const ASKED := ALONE + [Heard(0, BeaconHdr(22), BEACON, CLEAR)] + [Heard(0, REQUEST_HDR, REQUEST_PDU, CLEAR)]
  const SELF_CONNECTED := ASKED + [Heard(0, Hdr(5, 0, 11, LL_DATA, -40), [], BROKEN)]

  /** The PDU goes back to the socket it came from, and when that write fails the hub closes
      the socket that it is reading from. */
  lemma SelfConnection()
    ensures Disciplined(SELF_CONNECTED) && Live(After(ASKED).s, 0) && !Live(After(SELF_CONNECTED).s, 0)
  {
    hide After, Disciplined, Forward, Requests, Exact, HubInvariants.Inv, Routes, Room;
    var t := SelfRouted();
    AfterNext(ASKED, Heard(0, Hdr(5, 0, 11, LL_DATA, -40), [], BROKEN));
    ReachableInv(ASKED);
    ReachableExact(ASKED);
    assert BROKEN.hear(0).Some? && BROKEN.send(0).Failed?;
    SenderLostIff(t, 0, Hdr(5, 0, 11, LL_DATA, -40), [], BROKEN);
  }

  lemma SelfRouted() returns (t: HubState)
    ensures t == After(ASKED).s && Disciplined(ASKED) && Live(t, 0) && t.peers[0].node == 0
    ensures 5 in Routes(t.conns) && Routes(t.conns)[5] == (0, 0)
  {
    hide After, Disciplined, Forward, Requests, Exact, HubInvariants.Inv, Routes, Room;
    var s := Opened([false], 1);
    OpeningState([false], 1);
    OpenedOk(map[], 0, [false], 1);
    OpenedBlank([false], 1, 22, 5);
    assert s.peers == [Peer(true, false, false, 0)] && s.nodes[0].addrs == [];
    HeraldedOk(map[], 0, s, 0, 22);
    var r := Heralded(s, 0, 22);
    AfterNext(ALONE, Heard(0, BeaconHdr(22), BEACON, CLEAR));
    AfterNext(ALONE + [Heard(0, BeaconHdr(22), BEACON, CLEAR)], Heard(0, REQUEST_HDR, REQUEST_PDU, CLEAR));
    RequestFits(SELF_REQUEST);
    NoRouteHasRoom(r, 5);
    RequestHandled(map[], 0, SELF_REQUEST, REQUEST_HDR, REQUEST_PDU, r, 0, CLEAR);
    t := Forward(r, 0, REQUEST_HDR, REQUEST_PDU, CLEAR).s;
  }

  // ---------------------------------------------------------------- a bridge loop

  /** Two hubs joined by two bridges. */
  const LOOP: Wiring := map[Port(0, 2) := Port(1, 0), Port(1, 0) := Port(0, 2),
                            Port(0, 3) := Port(1, 1), Port(1, 1) := Port(0, 3)]

  /** Two nodes at hub 0, of which the second advertises. */
  const HUB0 := Heralded(Opened([false, false, true, true], 2), 1, 22)

  const RELAY := Opened([true, true], 0)

  const HUBS: map<HubId, HubState> := map[0 := HUB0, 1 := RELAY]

  const REQUEST := Request(5, 22, 0, 0, map[0 := 1, 1 := -1], {0})

  lemma HubsInOrder()
    ensures NetOk(LOOP, HUBS)
    ensures Steady(HUB0, REQUEST, 0) && Steady(RELAY, REQUEST, 1) && Online(HUBS, 0, 0) && HUB0.nodes[0].peer == 0
    ensures Routes(HUB0.conns) == map[] && Routes(RELAY.conns) == map[]
  {
    hide HubOk, Wired, HubSane, Heralded, Routes, Room, FindByAddr;
    LoopWired();
    LoopFits();
    var s := Opened([false, false, true, true], 2);
    OpenedOk(LOOP, 0, [false, false, true, true], 2);
    OpenedBlank([false, false, true, true], 2, 22, 5);
    assert s.peers[1] == Peer(true, false, false, 1) && s.nodes[1].addrs == [] && s.nodes[0].peer == 0;
    HeraldedOk(LOOP, 0, s, 1, 22);
    HubReady(LOOP, 0, HUB0, 5);
    OpenedOk(LOOP, 1, [true, true], 0);
    OpenedBlank([true, true], 0, 22, 5);
    HubReady(LOOP, 1, RELAY, 5);
  }

  lemma HubReady(wire: Wiring, h: HubId, s: HubState, aa: nat)
    requires HubOk(wire, h, s) && Routes(s.conns) == map[]
    ensures HubSane(wire, h, s) && Room(s.conns, aa)
  {
    NoRouteHasRoom(s, aa);
  }

  lemma LoopWired()
    ensures Wired(LOOP) && forall p :: p in LOOP ==> p.hub in HUBS
  {
    assert LOOP[Port(0, 2)] == Port(1, 0) && LOOP[Port(1, 0)] == Port(0, 2);
    assert LOOP[Port(0, 3)] == Port(1, 1) && LOOP[Port(1, 1)] == Port(0, 3);
    forall p | p in LOOP ensures LOOP[p] in LOOP && LOOP[LOOP[p]] == p && LOOP[p] != p && p.hub in HUBS {
      assert p == Port(0, 2) || p == Port(1, 0) || p == Port(0, 3) || p == Port(1, 1);
    }
  }

  lemma LoopFits()
    ensures Fits(LOOP, 0, [false, false, true, true]) && Fits(LOOP, 1, [true, true])
  {
    var kinds := [false, false, true, true];
    forall i: nat ensures Port(0, i) in LOOP <==> i < |kinds| && kinds[i] {
      assert Port(0, i) in LOOP <==> i == 2 || i == 3;
    }
    forall i: nat ensures Port(1, i) in LOOP <==> i < |[true, true]| && [true, true][i] {
      assert Port(1, i) in LOOP <==> i == 0 || i == 1;
    }
  }

  lemma RequestSettled()
    ensures MayConnect(LOOP, HUBS, REQUEST, 0, CLEAR)
  {
    hide NetOk, Steady, Routes, Heralded;
    HubsInOrder();
  }

  /** The request goes round the loop and comes back over the other bridge. */
  lemma GoesRound()
    ensures Within(LOOP, 0, 0)
  {
    var w := [Port(0, 2), Port(1, 1)];
    assert Reaches(LOOP, 0, w, 0);
  }

  /** The two nodes of one hub try to connect: once the request has come to rest, the hub
      has forgotten its own initiator, and the connection is not up. */
  lemma LoopBreaksConnection() returns (js: seq<Journey>)
    ensures js != [] && ConnectJourney(LOOP, REQUEST, REQUEST_HDR, REQUEST_PDU, js) && js[|js| - 1].inflight == {}
    ensures 0 in js[|js| - 1].hubs && 5 in Routes(js[|js| - 1].hubs[0].conns)
    ensures Routes(js[|js| - 1].hubs[0].conns)[5] == (-1, 1)
    ensures !Carried(js[|js| - 1].hubs, Conn2(5, 0, 0, 0, 1))
  {
    hide NetOk, Launch, Settled, Carried, Requests, ConnectJourney, MayConnect, Heralded;
    RequestFits(REQUEST);
    RequestSettled();
    GoesRound();
    js := ComesToRest(LOOP, HUBS, REQUEST, 0, REQUEST_HDR, REQUEST_PDU, CLEAR);
    var i := |js| - 1;
    InitiatorKnown(LOOP, REQUEST, REQUEST_HDR, REQUEST_PDU, js, i);
    RoutesAfterFlood(LOOP, REQUEST, REQUEST_HDR, REQUEST_PDU, js, i, 0);
    NotCarried(js[i].hubs);
  }

  lemma NotCarried(hubs: map<HubId, HubState>)
    requires 0 in hubs && 5 in Routes(hubs[0].conns) && Routes(hubs[0].conns)[5] == (-1, 1)
    ensures !Carried(hubs, Conn2(5, 0, 0, 0, 1))
  {
  }

  // ---------------------------------------------------------- a loop further away

  /** A chain of four hubs, and a triangle of bridges at its end. */
  const TAIL: Wiring := map[
    Port(0, 1) := Port(1, 0), Port(1, 0) := Port(0, 1), Port(1, 1) := Port(2, 0), Port(2, 0) := Port(1, 1),
    Port(2, 1) := Port(3, 1), Port(3, 1) := Port(2, 1), Port(3, 2) := Port(4, 0), Port(4, 0) := Port(3, 2),
    Port(4, 1) := Port(5, 0), Port(5, 0) := Port(4, 1), Port(5, 1) := Port(3, 3), Port(3, 3) := Port(5, 1)]

  predicate IsPort(p: Port) {
    p.hub < 6 && if p.hub == 0 then p.slot == 1 else if p.hub == 3 then 1 <= p.slot <= 3 else p.slot < 2
  }

  /** The far end of a port. */
  function Far(p: Port): Port {
    match p.hub
    case 0 => Port(1, 0)
    case 1 => if p.slot == 0 then Port(0, 1) else Port(2, 0)
    case 2 => if p.slot == 0 then Port(1, 1) else Port(3, 1)
    case 3 => if p.slot == 1 then Port(2, 1) else if p.slot == 2 then Port(4, 0) else Port(5, 1)
    case 4 => if p.slot == 0 then Port(3, 2) else Port(5, 0)
    case _ => if p.slot == 0 then Port(4, 1) else Port(3, 3)
  }

  lemma TailPort(p: Port)
    ensures p in TAIL <==> IsPort(p)
    ensures p in TAIL ==> TAIL[p] == Far(p)
  {
  }

  /** The links a copy that leaves by this port must cross before it can be at hub 0. */
  function Away(p: Port): nat {
    match p.hub
    case 0 => 9
    case 1 => if p.slot == 0 then 1 else 8
    case 2 => if p.slot == 0 then 2 else 7
    case 3 => if p.slot == 1 then 3 else 6
    case 4 => if p.slot == 0 then 4 else 5
    case _ => if p.slot == 0 then 5 else 4
  }

  lemma AwayNext(p: Port, q: Port)
    requires IsPort(p) && IsPort(q) && q.hub == Far(p).hub && q != Far(p)
    ensures Away(q) + 1 >= Away(p)
  {
  }

  lemma {:induction false} AwayAlong(w: Walk, k: nat)
    requires IsWalk(TAIL, 0, w) && k < |w|
    ensures IsPort(w[k]) && Away(w[k]) + k >= 9
  {
    hide TAIL;
    TailPort(w[k]);
    if k > 0 {
      AwayAlong(w, k - 1);
      TailPort(w[k - 1]);
      assert w[k - 1 + 1].hub == TAIL[w[k - 1]].hub && w[k - 1 + 1] != TAIL[w[k - 1]];
      AwayNext(w[k - 1], w[k]);
    }
  }

  /** A copy is back at hub 0 after nine links at the earliest. */
  lemma NeverBack()
    ensures !Within(TAIL, 0, 0)
  {
    hide TAIL;
    forall w | Reaches(TAIL, 0, w, 0) ensures |w| > MAX_HOPS {
      var k := |w| - 1;
      AwayAlong(w, k);
      TailPort(w[k]);
      assert Far(w[k]).hub == 0;
    }
  }

  const STRAIGHT: Walk := [Port(0, 1), Port(1, 1), Port(2, 1)]
  const ROUND: Walk := [Port(3, 2), Port(4, 1), Port(5, 1)]
  const ROUND_BACK: Walk := [Port(3, 3), Port(5, 0), Port(4, 0)]

  predicate Follows(w: Walk, i: nat)
    requires i + 1 < |w|
  {
    w[i + 1].hub == Far(w[i]).hub && w[i + 1] != Far(w[i])
  }

  lemma IsTailWalk(o: HubId, w: Walk, h: HubId)
    requires 0 < |w| <= MAX_HOPS && w[0].hub == o && Far(w[|w| - 1]).hub == h
    requires forall i :: 0 <= i < |w| ==> IsPort(w[i])
    requires forall i: nat :: i < |w| - 1 ==> Follows(w, i)
    ensures w in WalksTo(TAIL, o, h)
  {
    hide TAIL, WalksTo, Far, IsPort;
    forall i | 0 <= i < |w| ensures w[i] in TAIL && TAIL[w[i]] == Far(w[i]) {
      TailPort(w[i]);
    }
    forall i | 0 <= i < |w| - 1 ensures w[i + 1].hub == TAIL[w[i]].hub && w[i + 1] != TAIL[w[i]] {
      assert Follows(w, i);
    }
    WalksToIff(TAIL, o, h, w);
  }

  lemma Straight()
    ensures STRAIGHT in WalksTo(TAIL, 0, 3)
  {
    hide TAIL, WalksTo;
    assert Follows(STRAIGHT, 0) && Follows(STRAIGHT, 1);
    IsTailWalk(0, STRAIGHT, 3);
  }

  lemma Round()
    ensures STRAIGHT + ROUND in WalksTo(TAIL, 0, 3) && ROUND in WalksTo(TAIL, 3, 3)
  {
    hide TAIL, WalksTo;
    var w := STRAIGHT + ROUND;
    assert w == [Port(0, 1), Port(1, 1), Port(2, 1), Port(3, 2), Port(4, 1), Port(5, 1)];
    assert Follows(w, 0) && Follows(w, 1) && Follows(w, 2) && Follows(w, 3) && Follows(w, 4);
    IsTailWalk(0, w, 3);
    assert Follows(ROUND, 0) && Follows(ROUND, 1);
    IsTailWalk(3, ROUND, 3);
  }

  lemma RoundBack()
    ensures STRAIGHT + ROUND_BACK in WalksTo(TAIL, 0, 3)
  {
    hide TAIL, WalksTo;
    var w := STRAIGHT + ROUND_BACK;
    assert w == [Port(0, 1), Port(1, 1), Port(2, 1), Port(3, 3), Port(5, 0), Port(4, 0)];
    assert Follows(w, 0) && Follows(w, 1) && Follows(w, 2) && Follows(w, 3) && Follows(w, 4);
    IsTailWalk(0, w, 3);
  }

  /** Hub 3 is reached straight, and once round the triangle either way. */
  lemma ThreeWays()
    ensures |WalksTo(TAIL, 0, 3)| >= 3 && |WalksTo(TAIL, 3, 3)| >= 1
  {
    hide TAIL, WalksTo;
    var u, v := STRAIGHT + ROUND, STRAIGHT + ROUND_BACK;
    Straight();
    Round();
    RoundBack();
    assert u[3] == Port(3, 2) && v[3] == Port(3, 3);
    assert |{STRAIGHT, u, v}| == 3;
    SubsetSize({STRAIGHT, u, v}, WalksTo(TAIL, 0, 3));
    SubsetSize({ROUND}, WalksTo(TAIL, 3, 3));
  }

  /** The initiator at hub 0, the advertiser at hub 3. */
  const NEAR := Opened([false, true], 1)
  const FAR_OFF := Heralded(Opened([false, true, true, true], 1), 0, 22)
  const TAIL_HUBS: map<HubId, HubState> := map[0 := NEAR, 1 := RELAY, 2 := RELAY, 3 := FAR_OFF, 4 := RELAY, 5 := RELAY]
  const TAIL_REQUEST := Request(5, 22, 0, 0, map[0 := -1, 1 := -1, 2 := -1, 3 := 0, 4 := -1, 5 := -1], {0, 3})
  const TAIL_LINK := Conn2(5, 0, 0, 3, 0)

  lemma TailHub(h: HubId)
    ensures h in TAIL_HUBS <==> h < 6
  {
    hide Heralded, Opened, TAIL;
  }

  lemma FarBack(p: Port)
    requires IsPort(p)
    ensures IsPort(Far(p)) && Far(Far(p)) == p && Far(p) != p
  {
  }

  lemma TailWired()
    ensures Wired(TAIL) && forall p :: p in TAIL ==> p.hub in TAIL_HUBS
  {
    hide TAIL, TAIL_HUBS, Far;
    forall p | p in TAIL ensures TAIL[p] in TAIL && TAIL[TAIL[p]] == p && TAIL[p] != p && p.hub in TAIL_HUBS {
      TailPort(p);
      TailPort(Far(p));
      FarBack(p);
      TailHub(p.hub);
    }
  }

  lemma TailFits(h: HubId)
    requires h < 6
    ensures Fits(TAIL, h, if h == 0 then [false, true] else if h == 3 then [false, true, true, true] else [true, true])
  {
    hide TAIL;
    forall i: nat ensures Port(h, i) in TAIL <==> IsPort(Port(h, i)) {
      TailPort(Port(h, i));
    }
  }

  lemma RelayReady(h: HubId)
    requires h in {1, 2, 4, 5}
    ensures HubOk(TAIL, h, RELAY) && HubSane(TAIL, h, RELAY) && Steady(RELAY, TAIL_REQUEST, h)
  {
    hide TAIL, HubOk, HubSane, Room, FindByAddr;
    TailFits(h);
    OpenedOk(TAIL, h, [true, true], 0);
    OpenedBlank([true, true], 0, 22, 5);
    HubReady(TAIL, h, RELAY, 5);
  }

  lemma NearReady()
    ensures HubOk(TAIL, 0, NEAR) && HubSane(TAIL, 0, NEAR) && Steady(NEAR, TAIL_REQUEST, 0)
    ensures |NEAR.nodes| == 1 && NEAR.nodes[0].peer == 0 && Routes(NEAR.conns) == map[] && Routes(RELAY.conns) == map[]
  {
    hide TAIL, HubOk, HubSane, Room, FindByAddr;
    TailFits(0);
    OpenedOk(TAIL, 0, [false, true], 1);
    OpenedBlank([false, true], 1, 22, 5);
    HubReady(TAIL, 0, NEAR, 5);
  }

  lemma FarReady()
    ensures HubOk(TAIL, 3, FAR_OFF) && HubSane(TAIL, 3, FAR_OFF) && Steady(FAR_OFF, TAIL_REQUEST, 3)
    ensures |FAR_OFF.nodes| == 1 && FAR_OFF.nodes[0].peer == 0 && Routes(FAR_OFF.conns) == map[]
  {
    hide TAIL, HubOk, HubSane, Room, FindByAddr, Heralded, Routes;
    var s := Opened([false, true, true, true], 1);
    TailFits(3);
    OpenedOk(TAIL, 3, [false, true, true, true], 1);
    OpenedBlank([false, true, true, true], 1, 22, 5);
    assert s.peers[0] == Peer(true, false, false, 0) && s.nodes[0].addrs == [] && s.nodes[0].peer == 0;
    HeraldedOk(TAIL, 3, s, 0, 22);
    HubReady(TAIL, 3, FAR_OFF, 5);
  }

  lemma TailReady()
    ensures MayConnect(TAIL, TAIL_HUBS, TAIL_REQUEST, 0, CLEAR) && Online(TAIL_HUBS, 3, 0)
  {
    hide TAIL, HubOk, HubSane, Wired, Steady, Routes, Heralded, Opened;
    TailWired();
    NearReady();
    FarReady();
    RelayReady(1);
    RelayReady(2);
    RelayReady(4);
    RelayReady(5);
  }

  /** The connection is up, since no loop leads back to hub 0 within eight links; and yet a
      PDU of the initiator comes to the advertiser at least three times, and the advertiser
      hears its own PDU. */
  lemma FarLoopRepeats(pdu: seq<Byte>) returns (js: seq<Journey>, ks: seq<Journey>, ls: seq<Journey>)
    ensures js != [] && ConnectJourney(TAIL, TAIL_REQUEST, REQUEST_HDR, REQUEST_PDU, js) && js[|js| - 1].inflight == {}
    ensures Carried(js[|js| - 1].hubs, TAIL_LINK)
    ensures ks != [] && LinkJourney(TAIL, TAIL_LINK, true, Hdr(5, 0, 11, LL_DATA, -40), pdu, ks) && ks[|ks| - 1].inflight == {}
    ensures ks[|ks| - 1].got[(3, 0)] >= 3
    ensures ls != [] && LinkJourney(TAIL, TAIL_LINK, false, Hdr(5, 0, 22, LL_DATA, -40), pdu, ls) && ls[|ls| - 1].inflight == {}
    ensures ls[|ls| - 1].got[(3, 0)] >= 1
  {
    hide TAIL, NetOk, Requests, ConnectJourney, MayConnect, Heralded, Carried, LinkJourney, WalksTo, Within, Online, LinkStartBy;
    RequestFits(TAIL_REQUEST);
    TailReady();
    NeverBack();
    ThreeWays();
    WithinIff(TAIL, 0, 3);
    js := ComesToRest(TAIL, TAIL_HUBS, TAIL_REQUEST, 0, REQUEST_HDR, REQUEST_PDU, CLEAR);
    var i := |js| - 1;
    EstablishedIff(TAIL, TAIL_REQUEST, REQUEST_HDR, REQUEST_PDU, js, i, 3, 0);
    ks := LinkDelivers(TAIL, js[i].hubs, TAIL_LINK, true, Hdr(5, 0, 11, LL_DATA, -40), pdu, CLEAR);
    LinkArrives(TAIL, TAIL_LINK, true, Hdr(5, 0, 11, LL_DATA, -40), pdu, ks, |ks| - 1, (3, 0));
    ls := LinkDelivers(TAIL, js[i].hubs, TAIL_LINK, false, Hdr(5, 0, 22, LL_DATA, -40), pdu, CLEAR);
    LinkArrives(TAIL, TAIL_LINK, false, Hdr(5, 0, 22, LL_DATA, -40), pdu, ls, |ls| - 1, (3, 0));
  }

  // -------------------------------------------------------------- an entry for good

  /** A request comes over a bridge for a node that is somewhere else, and then both bridges
      go down. */
  const PASSED := Opening([true, true], 0) + [Heard(0, REQUEST_HDR.(ttl := 8), REQUEST_PDU, CLEAR)]
  const DESERTED := PASSED + [Left(0)] + [Left(1)]

  lemma RequestPassed()
    ensures 5 in Routes(After(PASSED).s.conns) && Routes(After(PASSED).s.conns)[5] == (-1, -1)
  {
    hide TAIL, After, Disciplined, Forward, Requests, HubSane, Routes, Room;
    var q := Request(5, 22, 0, 0, map[], {});
    OpeningState([true, true], 0);
    RelayReady(1);
    OpenedBlank([true, true], 0, 22, 5);
    assert RELAY.peers == [Peer(true, true, false, -1), Peer(true, true, false, -1)];
    AfterNext(Opening([true, true], 0), Heard(0, REQUEST_HDR.(ttl := 8), REQUEST_PDU, CLEAR));
    RequestFits(q);
    assert Requests(q, REQUEST_HDR.(ttl := 8), REQUEST_PDU) by {
      SameRequest(q);
    }
    RequestHandled(TAIL, 1, q, REQUEST_HDR.(ttl := 8), REQUEST_PDU, RELAY, 0, CLEAR);
  }

  lemma SameRequest(q: Request)
    requires Requests(q, REQUEST_HDR, REQUEST_PDU)
    ensures Requests(q, REQUEST_HDR.(ttl := 8), REQUEST_PDU)
  {
  }

  /** The hub keeps the entry, although no socket is left. */
  lemma EntryRemains()
    ensures 5 in Routes(After(DESERTED).s.conns) && Routes(After(DESERTED).s.conns)[5] == (-1, -1)
  {
    hide After, Routes, PeerClose;
    var m := |PASSED|;
    RequestPassed();
    assert DESERTED[..m] == PASSED;
    forall k | m <= k < |DESERTED| ensures Isolation.NoConnect(Step(After(DESERTED[..k]).s, DESERTED[k]).log, 5) {
      assert DESERTED[k].Left?;
    }
    Isolation.TransitRouteStays(DESERTED, m, 5);
  }
}
