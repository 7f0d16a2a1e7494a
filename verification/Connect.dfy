/** Setting a connection up across hubs: the routes that a flooded CONNECT_IND leaves
    behind, in any network, and what bridge loops do to them. */
module Connect {
  import opened Wire
  import opened HubModel
  import opened HubInvariants
  import opened HubRouting
  import opened HubTraffic
  import opened Flood
  import opened Network
  import opened Decay
  import opened Link

  /** A CONNECT_IND that node `na` of hub `ha` sends: the new Access Address, the address of
      the advertiser it names, the node of each hub that holds that address (-1: none), and
      the hubs that have room for the connection. */
  datatype Request = Request(aa: nat, adva: Addr, ha: HubId, na: int, owners: map<HubId, int>, room: set<HubId>)

  /** The frame carries the request. */
  ghost predicate Requests(q: Request, hdr: Hdr, pdu: seq<Byte>) {
    && hdr.llType == LL_ADV && hdr.txAddr != q.adva
    && IsConnectInd(pdu) && !Reserved(q.aa)
    && ParseConnectInd(pdu).Some?
    && ParseConnectInd(pdu).value.adva == q.adva && ParseConnectInd(pdu).value.aa == q.aa
  }

  /** The connection table can take an entry for the address. */
  predicate Room(conns: seq<Conn>, aa: nat) {
    FindConn(conns, aa) >= 0 || AllocSlot(conns).Some?
  }

  /** What the rest of the network leaves alone: who holds the advertiser's address, and
      room for the connection at the initiator's hub and at those named. */
  ghost predicate Settled(hubs: map<HubId, HubState>, q: Request) {
    && hubs.Keys == q.owners.Keys
    && Online(hubs, q.ha, q.na) && q.ha in q.room
    && forall h :: h in hubs ==> Steady(hubs[h], q, h)
  }

  predicate Steady(s: HubState, q: Request, h: HubId) {
    && h in q.owners && FindByAddr(s.nodes, q.adva) == q.owners[h]
    && (h in q.room ==> Room(s.conns, q.aa))
  }

  /** Every hub's routes say how far the request has come. */
  ghost predicate AllRouted(wire: Wiring, q: Request, hubs: map<HubId, HubState>, done: set<Walk>)
    requires hubs.Keys == q.owners.Keys
  {
    forall h :: h in hubs ==> Routed(wire, q, h, Routes(hubs[h].conns), done)
  }

  // -------------------------------------------------------- the effect on one hub

  lemma LearnOwner(s: HubState, a: int, addr: Addr, other: Addr)
    requires HubInvariants.Inv(s) && -1 <= a < |s.nodes| && addr != other
    ensures FindByAddr(Learn(s, a, addr).nodes, other) == FindByAddr(s.nodes, other)
  {
    if a >= 0 {
      var heard := s.nodes[a := s.nodes[a].(txPdus := s.nodes[a].txPdus + 1)];
      var r := Learn(s, a, addr).nodes;
      NodeTableSame(s.nodes, heard, s.stats.droppedModel);
      if addr != ZERO_ADDR {
        AddAddrHoldings(heard, a, addr);
      }
      assert forall n :: 0 <= n < |r| ==> (other in r[n].addrs <==> other in s.nodes[n].addrs);
      SameHolder(s.nodes, r, other);
    }
  }

  lemma SameHolder(a: seq<Node>, b: seq<Node>, x: Addr)
    requires |a| == |b| && forall n :: 0 <= n < |a| ==> (x in a[n].addrs <==> x in b[n].addrs)
    ensures FindByAddr(a, x) == FindByAddr(b, x)
  {
    var i, j := FirstHolder(a, x, 0), FirstHolder(b, x, 0);
    if i >= 0 {
      assert x in b[i].addrs;
    }
    if j >= 0 {
      assert x in a[j].addrs;
    }
  }

  /** A request's route is stored where there is room. */
  lemma SnoopStores(q: Request, hdr: Hdr, pdu: seq<Byte>, s: HubState, a: int)
    requires InRange(s) && -1 <= a < |s.nodes| && Requests(q, hdr, pdu)
    ensures SnoopAny(s, a, pdu).log ==
      if Room(s.conns, q.aa) then [Observed(q.aa, a, q.adva, FindByAddr(s.nodes, q.adva))] else []
  {
  }

  /** The routes that the request from node a (-1: over a bridge) leaves at a hub. */
  ghost function Stored(q: Request, s: HubState, a: int): map<nat, (int, int)> {
    if Room(s.conns, q.aa) then Routes(s.conns)[q.aa := (a, FindByAddr(s.nodes, q.adva))] else Routes(s.conns)
  }

  lemma RequestRoutes(wire: Wiring, h: HubId, q: Request, hdr: Hdr, pdu: seq<Byte>, s: HubState, src: nat, a: int, air: Air)
    requires HubOk(wire, h, s) && -1 <= a < |s.nodes| && Reliable(air)
    requires Requests(q, hdr, pdu)
    ensures Routes(Handle(s, src, a, hdr, pdu, air).s.conns)
         == Stored(q, s, a)
  {
    var tapped := Overhear(s, src, a, hdr, air);
    OverhearKeeps(s, src, a, hdr, air);
    OverhearQuiet(s, src, a, hdr, air);
    LearnOwner(s, a, hdr.txAddr, q.adva);
    SnoopStores(q, hdr, pdu, tapped.s, a);
    BroadcastRoutes(tapped.s, src, a, hdr, pdu, air);
    var log := SnoopAny(tapped.s, a, pdu).log;
    assert log != [] ==> log[..0] == [];
  }

  lemma BroadcastRoutes(s: HubState, src: nat, a: int, hdr: Hdr, pdu: seq<Byte>, air: Air)
    requires HubInvariants.Inv(s) && -1 <= a < |s.nodes| && Reliable(air)
    ensures Routes(Broadcast(s, src, a, hdr, pdu, air).s.conns) == Replay(Routes(s.conns), SnoopAny(s, a, pdu).log)
  {
    var snooped := SnoopAny(s, a, pdu);
    BroadcastTracks(s, src, a, hdr, pdu, air);
    FanOutReliable(snooped.s, src, hdr, air);
    VerdictsNeutral(Fan, snooped.s, src, hdr, air);
    ReplayConcat(Routes(s.conns), snooped.log, FanOut(snooped.s, src, hdr, air).log);
    NeutralReplay(Replay(Routes(s.conns), snooped.log), FanOut(snooped.s, src, hdr, air).log);
  }

  lemma StepOwner(loop: Loop, s: HubState, src: nat, hdr: Hdr, air: Air, i: nat, x: Addr)
    requires InRange(s) && i < |s.peers|
    ensures FindByAddr(LoopStep(loop, s, src, hdr, air, i).s.nodes, x) == FindByAddr(s.nodes, x)
  {
    SameHolder(s.nodes, LoopStep(loop, s, src, hdr, air, i).s.nodes, x);
  }

  lemma FanOwner(loop: Loop, s: HubState, src: nat, hdr: Hdr, air: Air, i: nat, x: Addr)
    requires InRange(s) && i <= |s.peers|
    ensures FindByAddr(Iterate(loop, s, src, hdr, air, i).s.nodes, x) == FindByAddr(s.nodes, x)
  {
    var p := (k: nat, r: Run) => FindByAddr(r.s.nodes, x) == FindByAddr(s.nodes, x);
    forall r: Run, k: nat | InRange(r.s) && k < |r.s.peers| && p(k, r)
      ensures p(k + 1, Then(r, LoopStep(loop, r.s, src, hdr, air, k)))
    {
      StepOwner(loop, r.s, src, hdr, air, k, x);
    }
    IterateThreads(p, loop, s, [], src, hdr, air, i);
  }

  /** Handling the request moves no address but the sender's own. */
  lemma RequestOwner(wire: Wiring, h: HubId, q: Request, hdr: Hdr, pdu: seq<Byte>, s: HubState, src: nat, a: int, air: Air)
    requires HubOk(wire, h, s) && -1 <= a < |s.nodes| && Requests(q, hdr, pdu)
    ensures FindByAddr(Handle(s, src, a, hdr, pdu, air).s.nodes, q.adva) == FindByAddr(s.nodes, q.adva)
  {
    var t := Overhear(s, src, a, hdr, air).s;
    OverhearQuiet(s, src, a, hdr, air);
    LearnOwner(s, a, hdr.txAddr, q.adva);
    FanOwner(Fan, SnoopAny(t, a, pdu).s, src, hdr, air, 0, q.adva);
  }

  lemma RoutedHasRoom(s: HubState, aa: nat)
    requires HubInvariants.Inv(s) && aa in Routes(s.conns)
    ensures Room(s.conns, aa)
  {
    FindConnIsRoute(s.conns, aa);
  }

  /** The hub with which the request is handled, and what it then holds. */
  lemma RequestHandled(wire: Wiring, h: HubId, q: Request, hdr: Hdr, pdu: seq<Byte>, s: HubState, src: nat, air: Air)
    requires HubOk(wire, h, s) && Live(s, src) && Reliable(air) && Requests(q, hdr, pdu)
    requires s.peers[src].bridge ==> hdr.ttl > 0
    ensures var r := Forward(s, src, hdr, pdu, air).s;
      && HubOk(wire, h, r) && r.peers == s.peers && |r.nodes| == |s.nodes|
      && Routes(r.conns) == Stored(q, s, s.peers[src].node)
      && FindByAddr(r.nodes, q.adva) == FindByAddr(s.nodes, q.adva) && (Room(s.conns, q.aa) ==> Room(r.conns, q.aa))
      && (forall n :: 0 <= n < |s.nodes| && s.nodes[n].peer >= 0 ==> r.nodes[n].peer >= 0)
  {
    hide Handle, Forward;
    var a := s.peers[src].node;
    var k := hdr.(ttl := if s.peers[src].bridge then hdr.ttl - 1 else FRESH_TTL);
    ForwardKeepsHub(wire, h, s, src, hdr, pdu, air);
    if s.peers[src].bridge {
      ForwardBridge(s, src, hdr, pdu, air);
    } else {
      ForwardPlain(s, src, hdr, pdu, air);
    }
    RequestRoutes(wire, h, q, k, pdu, s, src, a, air);
    RequestOwner(wire, h, q, k, pdu, s, src, a, air);
    if Room(s.conns, q.aa) {
      RoutedHasRoom(Forward(s, src, hdr, pdu, air).s, q.aa);
    }
    StillOnline(s, Forward(s, src, hdr, pdu, air).s);
  }

  // --------------------------------------------------------------- the journey

  ghost predicate Back(wire: Wiring, o: HubId, h: HubId, done: set<Walk>) {
    exists w :: w in done && |w| <= MAX_HOPS && Reaches(wire, o, w, h)
  }

  /** The entry at a hub the request has reached: the initiator is lost at its own hub as
      soon as a copy of the request comes back over a bridge. */
  ghost function Entered(wire: Wiring, q: Request, h: HubId, done: set<Walk>): (int, int)
    requires h in q.owners
  {
    (if h == q.ha && !Back(wire, q.ha, q.ha, done) then q.na else -1, q.owners[h])
  }

  ghost predicate Touched(wire: Wiring, q: Request, h: HubId, done: set<Walk>) {
    h == q.ha || Back(wire, q.ha, h, done)
  }

  /** A hub that has the request's route has been reached by the request, and one that has
      room and has been reached has the route. */
  ghost predicate Routed(wire: Wiring, q: Request, h: HubId, routes: map<nat, (int, int)>, done: set<Walk>)
    requires h in q.owners
  {
    && (q.aa in routes ==> Touched(wire, q, h, done) && routes[q.aa] == Entered(wire, q, h, done))
    && (h in q.room && Touched(wire, q, h, done) ==> q.aa in routes)
  }

  ghost predicate ConnectInv(wire: Wiring, q: Request, hdr: Hdr, j: Journey) {
    && NetOk(wire, j.hubs) && Settled(j.hubs, q)
    && Tracking(wire, q.ha, hdr, j)
    && AllRouted(wire, q, j.hubs, j.done)
  }

  /** The rest of the network changes, but not the routes of this Access Address. */
  ghost predicate Bystanders(wire: Wiring, q: Request, j: Journey, k: Journey) {
    && k == j.(hubs := k.hubs) && NetOk(wire, k.hubs) && Settled(k.hubs, q)
    && forall h :: h in k.hubs && h in j.hubs ==>
         && (q.aa in Routes(k.hubs[h].conns) <==> q.aa in Routes(j.hubs[h].conns))
         && (q.aa in Routes(k.hubs[h].conns) ==> Routes(k.hubs[h].conns)[q.aa] == Routes(j.hubs[h].conns)[q.aa])
  }

  ghost predicate ConnectMove(wire: Wiring, q: Request, pdu: seq<Byte>, j: Journey, k: Journey) {
    Hops(wire, pdu, j, k) || Bystanders(wire, q, j, k)
  }

  /** The initiator sends the request over its own socket; the address is new everywhere. */
  ghost predicate MayConnect(wire: Wiring, hubs: map<HubId, HubState>, q: Request, src: nat, air: Air) {
    && NetOk(wire, hubs) && Settled(hubs, q) && Reliable(air)
    && src == hubs[q.ha].nodes[q.na].peer
    && (forall h :: h in hubs ==> q.aa !in Routes(hubs[h].conns))
  }

  lemma SettledAfter(hubs: map<HubId, HubState>, q: Request, h: HubId, s: HubState)
    requires Settled(hubs, q) && h in hubs && |s.nodes| == |hubs[h].nodes| && Steady(s, q, h)
    requires forall n :: 0 <= n < |s.nodes| && hubs[h].nodes[n].peer >= 0 ==> s.nodes[n].peer >= 0
    ensures Settled(hubs[h := s], q)
  {
    assert Online(hubs[h := s], q.ha, q.na);
    assert hubs[h := s].Keys == hubs.Keys;
  }

  lemma LaunchConnect(wire: Wiring, hubs: map<HubId, HubState>, q: Request, src: nat, hdr: Hdr, pdu: seq<Byte>, air: Air)
    requires MayConnect(wire, hubs, q, src, air) && Requests(q, hdr, pdu)
    ensures Live(hubs[q.ha], src)
    ensures ConnectInv(wire, q, hdr, Launch(wire, hubs, q.ha, src, hdr, pdu, air))
  {
    hide Launch;
    InitiatorIsPlain(wire, hubs, q, src, air);
    LaunchTracks(wire, hubs, q.ha, src, hdr, pdu, air);
    LaunchRoutes(wire, hubs, q, src, hdr, pdu, air);
    var j := Launch(wire, hubs, q.ha, src, hdr, pdu, air);
    assert forall h :: !Back(wire, q.ha, h, j.done);
  }

  lemma InitiatorIsPlain(wire: Wiring, hubs: map<HubId, HubState>, q: Request, src: nat, air: Air)
    requires MayConnect(wire, hubs, q, src, air)
    ensures Live(hubs[q.ha], src) && hubs[q.ha].peers[src].node == q.na && !hubs[q.ha].peers[src].bridge
  {
    assert HubOk(wire, q.ha, hubs[q.ha]);
    BoundPeer(hubs[q.ha], q.na);
  }

  lemma BoundPeer(s: HubState, n: int)
    requires HubInvariants.Inv(s) && Exact(s) && 0 <= n < |s.nodes| && s.nodes[n].peer >= 0
    ensures var p := s.nodes[n].peer; Live(s, p) && s.peers[p].node == n && !s.peers[p].bridge
  {
  }

  lemma LaunchRoutes(wire: Wiring, hubs: map<HubId, HubState>, q: Request, src: nat, hdr: Hdr, pdu: seq<Byte>, air: Air)
    requires MayConnect(wire, hubs, q, src, air) && Requests(q, hdr, pdu) && Live(hubs[q.ha], src)
    ensures var j := Launch(wire, hubs, q.ha, src, hdr, pdu, air);
      NetOk(wire, j.hubs) && Settled(j.hubs, q) && AllRouted(wire, q, j.hubs, {})
  {
    hide Forward, Routes, AllRouted, Room, NodeTable, ConnTable, PeerTable, Exact;
    var s := hubs[q.ha];
    InitiatorIsPlain(wire, hubs, q, src, air);
    RequestHandled(wire, q.ha, q, hdr, pdu, s, src, air);
    var r := Forward(s, src, hdr, pdu, air).s;
    NetOkAfter(wire, hubs, q.ha, r);
    SettledAfter(hubs, q, q.ha, r);
    FirstRouted(wire, hubs, q, r);
  }

  lemma FirstRouted(wire: Wiring, hubs: map<HubId, HubState>, q: Request, r: HubState)
    requires hubs.Keys == q.owners.Keys && q.ha in hubs
    requires forall h :: h in hubs ==> q.aa !in Routes(hubs[h].conns)
    requires Routes(r.conns) == Routes(hubs[q.ha].conns)[q.aa := (q.na, q.owners[q.ha])]
    ensures hubs[q.ha := r].Keys == q.owners.Keys && AllRouted(wire, q, hubs[q.ha := r], {})
  {
    hide Routes, Back;
    NothingBack(wire, q.ha);
    assert hubs[q.ha := r].Keys == hubs.Keys;
  }

  lemma NothingBack(wire: Wiring, o: HubId)
    ensures forall h :: !Back(wire, o, h, {})
  {
  }

  /** How one more walk taken in changes which hubs have been reached. */
  lemma BackGrows(wire: Wiring, o: HubId, h: HubId, done: set<Walk>, w: Walk)
    requires IsWalk(wire, o, w)
    ensures Back(wire, o, h, done + {w})
       <==> Back(wire, o, h, done) || (|w| <= MAX_HOPS && Arrival(wire, w).hub == h)
  {
    if Back(wire, o, h, done) {
      var v :| v in done && |v| <= MAX_HOPS && Reaches(wire, o, v, h);
      assert v in done + {w};
    }
    if |w| <= MAX_HOPS && Arrival(wire, w).hub == h {
      assert w in done + {w} && Reaches(wire, o, w, h);
    }
  }

  /** The hub that a copy of the request arrives at, before and after. */
  lemma HopHub(wire: Wiring, q: Request, hdr: Hdr, pdu: seq<Byte>, air: Air, s: HubState, c: Copy)
    requires Wired(wire) && Nonempty(wire, c.path) && HubOk(wire, Arrival(wire, c.path).hub, s)
    requires c.hdr == Stamp(hdr, c.path) && |c.path| <= MAX_LINKS && Requests(q, hdr, pdu) && Reliable(air)
    ensures var at := Arrival(wire, c.path);
      && InRange(s) && Bridged(s, at.slot)
      && var r := Forward(s, at.slot, c.hdr, pdu, air).s;
      && HubOk(wire, at.hub, r) && |r.nodes| == |s.nodes| && (Steady(s, q, at.hub) ==> Steady(r, q, at.hub))
      && (forall n :: 0 <= n < |s.nodes| && s.nodes[n].peer >= 0 ==> r.nodes[n].peer >= 0)
      && Routes(r.conns) ==
           if |c.path| <= MAX_HOPS then Stored(q, s, -1) else Routes(s.conns)
  {
    hide Forward, Handle;
    var at := Arrival(wire, c.path);
    ArrivalPort(wire, s, c.path);
    if |c.path| <= MAX_HOPS {
      assert Requests(q, c.hdr, pdu);
      RequestHandled(wire, at.hub, q, c.hdr, pdu, s, at.slot, air);
    } else {
      ArrivalForward(s, at.slot, c, hdr, pdu, air);
    }
  }

  lemma HopSettles(wire: Wiring, q: Request, hdr: Hdr, pdu: seq<Byte>, air: Air, j: Journey, c: Copy)
    requires NetOk(wire, j.hubs) && Settled(j.hubs, q)
    requires Requests(q, hdr, pdu) && Reliable(air) && c in j.inflight
    requires IsWalk(wire, q.ha, c.path) && |c.path| <= MAX_LINKS && c.hdr == Stamp(hdr, c.path)
    ensures var k := Hop(wire, j, c, pdu, air); NetOk(wire, k.hubs) && Settled(k.hubs, q)
  {
    var at := Arrival(wire, c.path);
    var r := HopState(wire, q, hdr, pdu, air, j, c);
    Replaced(wire, q, j.hubs, at.hub, r);
  }

  /** The hub at which the copy arrives, afterwards. */
  lemma HopState(wire: Wiring, q: Request, hdr: Hdr, pdu: seq<Byte>, air: Air, j: Journey, c: Copy) returns (r: HubState)
    requires NetOk(wire, j.hubs) && Settled(j.hubs, q)
    requires Requests(q, hdr, pdu) && Reliable(air) && c in j.inflight
    requires IsWalk(wire, q.ha, c.path) && |c.path| <= MAX_LINKS && c.hdr == Stamp(hdr, c.path)
    ensures var h := Arrival(wire, c.path).hub;
      && h in j.hubs && h in q.owners && Hop(wire, j, c, pdu, air).hubs == j.hubs[h := r]
      && HubOk(wire, h, r) && |r.nodes| == |j.hubs[h].nodes| && Steady(r, q, h)
      && (forall n :: 0 <= n < |r.nodes| && j.hubs[h].nodes[n].peer >= 0 ==> r.nodes[n].peer >= 0)
  {
    hide Forward, HubOk, HubSane, Requests, Reliable;
    var at := Arrival(wire, c.path);
    var s := j.hubs[at.hub];
    assert Steady(s, q, at.hub) && HubOk(wire, at.hub, s);
    HopHub(wire, q, hdr, pdu, air, s, c);
    r := Forward(s, at.slot, c.hdr, pdu, air).s;
  }

  lemma Replaced(wire: Wiring, q: Request, hubs: map<HubId, HubState>, h: HubId, r: HubState)
    requires NetOk(wire, hubs) && Settled(hubs, q) && h in hubs && HubOk(wire, h, r)
    requires |r.nodes| == |hubs[h].nodes| && Steady(r, q, h)
    requires forall n :: 0 <= n < |r.nodes| && hubs[h].nodes[n].peer >= 0 ==> r.nodes[n].peer >= 0
    ensures NetOk(wire, hubs[h := r]) && Settled(hubs[h := r], q)
  {
    NetOkAfter(wire, hubs, h, r);
    SettledAfter(hubs, q, h, r);
  }

  lemma HopRoutes(wire: Wiring, q: Request, hdr: Hdr, pdu: seq<Byte>, air: Air, j: Journey, c: Copy)
    requires NetOk(wire, j.hubs) && Settled(j.hubs, q) && AllRouted(wire, q, j.hubs, j.done)
    requires Requests(q, hdr, pdu) && Reliable(air) && c in j.inflight
    requires IsWalk(wire, q.ha, c.path) && |c.path| <= MAX_LINKS && c.hdr == Stamp(hdr, c.path)
    ensures var k := Hop(wire, j, c, pdu, air); k.hubs.Keys == q.owners.Keys && AllRouted(wire, q, k.hubs, k.done)
  {
    hide Forward, HubOk, HubSane, Requests, Reliable, AllRouted;
    var at := Arrival(wire, c.path);
    var s := j.hubs[at.hub];
    assert Steady(s, q, at.hub) && HubOk(wire, at.hub, s);
    HopHub(wire, q, hdr, pdu, air, s, c);
    AllRoutedGrows(wire, q, j.hubs, Forward(s, at.slot, c.hdr, pdu, air).s, j.done, c.path);
  }

  lemma HopConnect(wire: Wiring, q: Request, hdr: Hdr, pdu: seq<Byte>, air: Air, j: Journey, c: Copy)
    requires ConnectInv(wire, q, hdr, j) && Requests(q, hdr, pdu) && Reliable(air)
    requires c in j.inflight && Nonempty(wire, c.path)
    ensures ConnectInv(wire, q, hdr, Hop(wire, j, c, pdu, air))
  {
    hide Hop;
    HopTracks(wire, q.ha, hdr, j, c, pdu, air);
    HopSettles(wire, q, hdr, pdu, air, j, c);
    HopRoutes(wire, q, hdr, pdu, air, j, c);
  }

  lemma AllRoutedGrows(wire: Wiring, q: Request, hubs: map<HubId, HubState>, r: HubState, done: set<Walk>, w: Walk)
    requires hubs.Keys == q.owners.Keys && AllRouted(wire, q, hubs, done) && q.ha in q.room
    requires IsWalk(wire, q.ha, w) && Arrival(wire, w).hub in hubs && Steady(hubs[Arrival(wire, w).hub], q, Arrival(wire, w).hub)
    requires var s := hubs[Arrival(wire, w).hub]; Routes(r.conns) == if |w| <= MAX_HOPS then Stored(q, s, -1) else Routes(s.conns)
    ensures var after := hubs[Arrival(wire, w).hub := r];
      after.Keys == q.owners.Keys && AllRouted(wire, q, after, done + {w})
  {
    var after := hubs[Arrival(wire, w).hub := r];
    assert after.Keys == hubs.Keys;
    forall h | h in after ensures Routed(wire, q, h, Routes(after[h].conns), done + {w}) {
      RoutedGrows(wire, q, h, hubs[h], done, w);
    }
  }

  /** One more walk taken in: the hub it leads to gets the route, with no initiator. */
  lemma RoutedGrows(wire: Wiring, q: Request, h: HubId, s: HubState, done: set<Walk>, w: Walk)
    requires h in q.owners && q.ha in q.room && IsWalk(wire, q.ha, w) && Routed(wire, q, h, Routes(s.conns), done)
    requires Arrival(wire, w).hub == h ==> Steady(s, q, h)
    ensures Routed(wire, q, h,
      if |w| <= MAX_HOPS && Arrival(wire, w).hub == h then Stored(q, s, -1) else Routes(s.conns), done + {w})
  {
    hide Routes, Room, Back;
    BackGrows(wire, q.ha, h, done, w);
    BackGrows(wire, q.ha, q.ha, done, w);
  }

  /** The initiator has just sent its request. */
  ghost predicate ConnectStart(wire: Wiring, q: Request, hdr: Hdr, pdu: seq<Byte>, j: Journey) {
    exists hubs, src, air ::
      MayConnect(wire, hubs, q, src, air) && Live(hubs[q.ha], src)
      && j == Launch(wire, hubs, q.ha, src, hdr, pdu, air)
  }

  lemma ConnectStartInv(wire: Wiring, q: Request, hdr: Hdr, pdu: seq<Byte>, j: Journey)
    requires Requests(q, hdr, pdu) && ConnectStart(wire, q, hdr, pdu, j)
    ensures ConnectInv(wire, q, hdr, j)
  {
    hide Launch, ConnectInv;
    var hubs, src, air :| MayConnect(wire, hubs, q, src, air) && Live(hubs[q.ha], src)
      && j == Launch(wire, hubs, q.ha, src, hdr, pdu, air);
    LaunchConnect(wire, hubs, q, src, hdr, pdu, air);
  }

  /** A CONNECT_IND followed through every interleaving. */
  ghost predicate ConnectJourney(wire: Wiring, q: Request, hdr: Hdr, pdu: seq<Byte>, js: seq<Journey>) {
    && js != []
    && ConnectStart(wire, q, hdr, pdu, js[0])
    && (forall i :: 0 < i < |js| ==> ConnectMove(wire, q, pdu, js[i - 1], js[i]))
  }

  lemma ConnectMoveKeeps(wire: Wiring, q: Request, hdr: Hdr, pdu: seq<Byte>, j: Journey, k: Journey)
    requires ConnectInv(wire, q, hdr, j) && Requests(q, hdr, pdu) && ConnectMove(wire, q, pdu, j, k)
    ensures ConnectInv(wire, q, hdr, k)
  {
    hide Hop, ConnectInv, NetOk;
    if Hops(wire, pdu, j, k) {
      var c: Copy, air: Air :| HopsBy(wire, pdu, j, k, c, air);
      HopConnect(wire, q, hdr, pdu, air, j, c);
    } else {
      BystandersKeep(wire, q, hdr, j, k);
    }
  }

  lemma BystandersKeep(wire: Wiring, q: Request, hdr: Hdr, j: Journey, k: Journey)
    requires ConnectInv(wire, q, hdr, j) && Bystanders(wire, q, j, k)
    ensures ConnectInv(wire, q, hdr, k)
  {
    assert k.hubs.Keys == j.hubs.Keys;
    forall h | h in k.hubs ensures Routed(wire, q, h, Routes(k.hubs[h].conns), k.done) {
      assert h in j.hubs && Routed(wire, q, h, Routes(j.hubs[h].conns), j.done);
    }
  }

  lemma {:induction false} ConnectJourneyInv(wire: Wiring, q: Request, hdr: Hdr, pdu: seq<Byte>, js: seq<Journey>, i: nat)
    requires Requests(q, hdr, pdu) && ConnectJourney(wire, q, hdr, pdu, js) && i < |js|
    ensures ConnectInv(wire, q, hdr, js[i])
  {
    hide ConnectMove, ConnectStart, ConnectInv;
    if i == 0 {
      ConnectStartInv(wire, q, hdr, pdu, js[0]);
    } else {
      ConnectJourneyInv(wire, q, hdr, pdu, js, i - 1);
      ConnectMoveKeeps(wire, q, hdr, pdu, js[i - 1], js[i]);
    }
  }

  lemma QuietBack(wire: Wiring, o: HubId, h: HubId, f: Process)
    requires Flood.Inv(wire, o, f) && f.inflight == {}
    ensures Back(wire, o, h, f.done) <==> Within(wire, o, h)
  {
    forall w | |w| <= MAX_HOPS && Reaches(wire, o, w, h) ensures w in f.done {
      QuietMeansComplete(wire, o, f, w);
    }
  }

  ghost predicate RoutedAt(wire: Wiring, q: Request, h: HubId, routes: map<nat, (int, int)>)
    requires h in q.owners
  {
    && (h in q.room ==> (q.aa in routes <==> h == q.ha || Within(wire, q.ha, h)))
    && (q.aa in routes ==>
          && (h == q.ha || Within(wire, q.ha, h))
          && routes[q.aa] == (if h == q.ha && !Within(wire, q.ha, q.ha) then q.na else -1, q.owners[h]))
  }

  /** In any network, cycles included: once the request has flooded, a hub that has room
      routes the new address if and only if it is the initiator's or within eight bridges of
      it, and a hub that has not routes it only then; the advertiser's side is the holder of the advertiser's address at that hub; and the
      initiator's own hub still knows the initiator if and only if no bridge loop of at
      most eight links leads back to it. */
  lemma RoutesAfterFlood(wire: Wiring, q: Request, hdr: Hdr, pdu: seq<Byte>, js: seq<Journey>, i: nat, h: HubId)
    requires Requests(q, hdr, pdu) && ConnectJourney(wire, q, hdr, pdu, js) && i < |js|
    requires js[i].inflight == {} && h in js[i].hubs
    ensures h in q.owners && RoutedAt(wire, q, h, Routes(js[i].hubs[h].conns))
  {
    ConnectJourneyInv(wire, q, hdr, pdu, js, i);
    var f := Process(Paths(js[i].inflight), js[i].done);
    assert f.inflight == {};
    QuietBack(wire, q.ha, h, f);
    QuietBack(wire, q.ha, q.ha, f);
  }

  /** The node to which hub h sends data PDUs from node a (-1: over a bridge) once the
      request has flooded, if it has room. */
  ghost function Leads(wire: Wiring, q: Request, h: HubId, a: int): int
    requires h in q.owners
  {
    if h != q.ha && !Within(wire, q.ha, h) then -1
    else if h == q.ha && !Within(wire, q.ha, q.ha) then (if a == q.na then q.owners[h] else q.na)
    else if a == -1 then q.owners[h]
    else -1
  }

  lemma LeadsAfterFlood(wire: Wiring, q: Request, hdr: Hdr, pdu: seq<Byte>, js: seq<Journey>, i: nat, h: HubId, a: int)
    requires Requests(q, hdr, pdu) && ConnectJourney(wire, q, hdr, pdu, js) && i < |js|
    requires js[i].inflight == {} && h in js[i].hubs && a >= -1
    ensures h in q.owners
    ensures var n := Target(Routes(js[i].hubs[h].conns), q.aa, a);
      n == Leads(wire, q, h, a) || (h !in q.room && n == -1)
  {
    hide Within;
    hide ConnectJourney;
    RoutesAfterFlood(wire, q, hdr, pdu, js, i, h);
    InitiatorKnown(wire, q, hdr, pdu, js, i);
  }

  lemma InitiatorKnown(wire: Wiring, q: Request, hdr: Hdr, pdu: seq<Byte>, js: seq<Journey>, i: nat)
    requires Requests(q, hdr, pdu) && ConnectJourney(wire, q, hdr, pdu, js) && i < |js|
    ensures q.ha in js[i].hubs && q.na >= 0 && Online(js[i].hubs, q.ha, q.na) && NetOk(wire, js[i].hubs)
    ensures js[i].hubs.Keys == q.owners.Keys && q.ha in q.room
  {
    hide ConnectJourney, NetOk;
    ConnectJourneyInv(wire, q, hdr, pdu, js, i);
  }

  /** The advertiser's address is held by node nb of hub hb, which has room for the
      connection, and by nobody else. */
  ghost predicate OnlyAt(q: Request, hb: HubId, nb: int) {
    && hb in q.owners && hb in q.room && nb >= 0 && (hb == q.ha ==> nb != q.na)
    && forall h :: h in q.owners ==> q.owners[h] == if h == hb then nb else -1
  }

  /** In any network: a flooded request sets its connection up if and only if no bridge loop
      of at most eight links leads back to the initiator's hub, and the advertiser's hub is
      the same or at most eight bridges away. Hubs between the two need no room for it. PDUs
      then travel as OncePerWalk says, and arrive exactly once as ExactlyOnceIff says. */
  lemma EstablishedIff(wire: Wiring, q: Request, hdr: Hdr, pdu: seq<Byte>, js: seq<Journey>, i: nat, hb: HubId, nb: int)
    requires Requests(q, hdr, pdu) && ConnectJourney(wire, q, hdr, pdu, js) && i < |js|
    requires js[i].inflight == {} && OnlyAt(q, hb, nb) && Online(js[i].hubs, hb, nb)
    ensures NetOk(wire, js[i].hubs)
    ensures Carried(js[i].hubs, Conn2(q.aa, q.ha, q.na, hb, nb))
       <==> !Within(wire, q.ha, q.ha) && (hb == q.ha || Within(wire, q.ha, hb))
  {
    hide ConnectJourney, NetOk;
    InitiatorKnown(wire, q, hdr, pdu, js, i);
    forall h | h in js[i].hubs
      ensures h in q.owners && RoutedAt(wire, q, h, Routes(js[i].hubs[h].conns))
    {
      RoutesAfterFlood(wire, q, hdr, pdu, js, i, h);
    }
  }

  /** What a bridge loop within eight links of the initiator's hub does to a connection: the
      initiator gets nothing any more, from anybody; while the advertiser gets a PDU that any
      node sends at any hub, its own PDUs included, once for every walk there. Nobody else
      gets anything. */
  lemma LoopDeafensInitiator(wire: Wiring, q: Request, hdr: Hdr, pdu: seq<Byte>, js: seq<Journey>, i: nat, hb: HubId, nb: int,
                             o: HubId, a: int, aims: map<HubId, int>, local: int,
                             dhdr: Hdr, data: seq<Byte>, ks: seq<Journey>, k: nat, e: (HubId, int))
    requires Requests(q, hdr, pdu) && ConnectJourney(wire, q, hdr, pdu, js) && i < |js| && js[i].inflight == {}
    requires Within(wire, q.ha, q.ha)
    requires OnlyAt(q, hb, nb) && Online(js[i].hubs, hb, nb) && (hb == q.ha || Within(wire, q.ha, hb))
    requires o in js[i].hubs && a >= 0 && local == Due(js[i].hubs[o], q.aa, a) && Aimed(js[i].hubs, q.aa, aims)
    requires DataJourney(wire, o, local, q.aa, aims, dhdr, data, ks) && k < |ks|
    ensures ks[k].got[e] <= if e == (hb, nb) then |WalksTo(wire, o, hb)| else 0
    ensures ks[k].inflight == {} ==> ks[k].got[e] == if e == (hb, nb) then |WalksTo(wire, o, hb)| else 0
  {
    hide ConnectJourney, DataJourney, Within, WalksTo;
    LeadsAfterFlood(wire, q, hdr, pdu, js, i, o, a);
    LoopAims(wire, q, hdr, pdu, js, i, hb, nb, aims);
    assert e == (e.0, e.1);
    OncePerWalk(wire, o, local, q.aa, aims, dhdr, data, ks, k, e.0, e.1);
  }

  lemma LoopAims(wire: Wiring, q: Request, hdr: Hdr, pdu: seq<Byte>, js: seq<Journey>, i: nat, hb: HubId, nb: int,
                 aims: map<HubId, int>)
    requires Requests(q, hdr, pdu) && ConnectJourney(wire, q, hdr, pdu, js) && i < |js| && js[i].inflight == {}
    requires Within(wire, q.ha, q.ha)
    requires OnlyAt(q, hb, nb) && Online(js[i].hubs, hb, nb) && (hb == q.ha || Within(wire, q.ha, hb))
    requires Aimed(js[i].hubs, q.aa, aims)
    ensures hb in aims && forall h :: h in aims ==> aims[h] == if h == hb then nb else -1
  {
    hide ConnectJourney, Within;
    forall h | h in aims ensures aims[h] == if h == hb then nb else -1 {
      LeadsAfterFlood(wire, q, hdr, pdu, js, i, h, -1);
      assert Due(js[i].hubs[h], q.aa, -1) == aims[h];
    }
  }

  // ---------------------------------------------------------------- completion

  /** No node goes offline. */
  ghost predicate StaysOnline(hubs: map<HubId, HubState>, after: map<HubId, HubState>) {
    forall h, n :: Online(hubs, h, n) ==> Online(after, h, n)
  }

  /** Every request under way can come to rest: its journey can be continued until no copy
      is under way. */
  lemma {:induction false} Completes(wire: Wiring, q: Request, hdr: Hdr, pdu: seq<Byte>, js: seq<Journey>, air: Air)
    returns (ks: seq<Journey>)
    requires js != [] && Requests(q, hdr, pdu) && ConnectJourney(wire, q, hdr, pdu, js) && Reliable(air)
    ensures js <= ks && ConnectJourney(wire, q, hdr, pdu, ks) && ks[|ks| - 1].inflight == {}
    ensures StaysOnline(js[|js| - 1].hubs, ks[|ks| - 1].hubs)
    decreases Load(|wire.Keys|, js[|js| - 1].inflight)
  {
    hide ConnectMove, ConnectStart, Hop, Load, DegreeAtMost, NetOk;
    var j := js[|js| - 1];
    if j.inflight == {} {
      ks := js;
    } else {
      var c :| c in j.inflight;
      var next := Arrives(wire, q, hdr, pdu, js, c, air);
      var more := js + [next];
      forall i | 0 < i < |more| ensures ConnectMove(wire, q, pdu, more[i - 1], more[i]) {
        if i < |js| {
          assert more[i - 1] == js[i - 1] && more[i] == js[i];
        }
      }
      ks := Completes(wire, q, hdr, pdu, more, air);
    }
  }

  lemma ComesToRest(wire: Wiring, hubs: map<HubId, HubState>, q: Request, src: nat, hdr: Hdr, pdu: seq<Byte>, air: Air)
    returns (js: seq<Journey>)
    requires MayConnect(wire, hubs, q, src, air) && Requests(q, hdr, pdu)
    ensures js != [] && ConnectJourney(wire, q, hdr, pdu, js) && js[|js| - 1].inflight == {}
    ensures StaysOnline(hubs, js[|js| - 1].hubs)
  {
    hide MayConnect, Requests, ConnectMove, ConnectStart, StaysOnline;
    var j := SetsOut(wire, hubs, q, src, hdr, pdu, air);
    js := Completes(wire, q, hdr, pdu, [j], air);
    OnlineThrough(hubs, j.hubs, js[|js| - 1].hubs);
  }

  lemma SetsOut(wire: Wiring, hubs: map<HubId, HubState>, q: Request, src: nat, hdr: Hdr, pdu: seq<Byte>, air: Air)
    returns (j: Journey)
    requires MayConnect(wire, hubs, q, src, air) && Requests(q, hdr, pdu)
    ensures ConnectStart(wire, q, hdr, pdu, j) && StaysOnline(hubs, j.hubs) && Reliable(air)
  {
    hide HubOk, HubSane, Steady, Launch, Requests, StaysOnline;
    InitiatorIsPlain(wire, hubs, q, src, air);
    j := Launch(wire, hubs, q.ha, src, hdr, pdu, air);
    LaunchOnline(wire, hubs, q, src, hdr, pdu, air);
  }

  lemma OnlineThrough(a: map<HubId, HubState>, b: map<HubId, HubState>, c: map<HubId, HubState>)
    requires StaysOnline(a, b) && StaysOnline(b, c)
    ensures StaysOnline(a, c)
  {
    hide Online;
  }

  lemma Arrives(wire: Wiring, q: Request, hdr: Hdr, pdu: seq<Byte>, js: seq<Journey>, c: Copy, air: Air)
    returns (next: Journey)
    requires js != [] && Requests(q, hdr, pdu) && ConnectJourney(wire, q, hdr, pdu, js) && Reliable(air)
    requires c in js[|js| - 1].inflight
    ensures ConnectMove(wire, q, pdu, js[|js| - 1], next)
    ensures Load(|wire.Keys|, next.inflight) < Load(|wire.Keys|, js[|js| - 1].inflight)
    ensures StaysOnline(js[|js| - 1].hubs, next.hubs)
  {
    hide ConnectJourney, Hop, Load, DegreeAtMost, NetSane, HubOk, AllRouted, Settled, StaysOnline;
    var j := js[|js| - 1];
    ConnectJourneyInv(wire, q, hdr, pdu, js, |js| - 1);
    assert c.path in Paths(j.inflight);
    next := Hop(wire, j, c, pdu, air);
    SomeDegree(wire);
    HopDecays(wire, j, c, pdu, air, |wire.Keys|);
    assert HopsBy(wire, pdu, j, next, c, air);
    HopOnline(wire, q, hdr, pdu, air, j, c);
  }

  lemma HopOnline(wire: Wiring, q: Request, hdr: Hdr, pdu: seq<Byte>, air: Air, j: Journey, c: Copy)
    requires NetOk(wire, j.hubs) && Settled(j.hubs, q)
    requires Requests(q, hdr, pdu) && Reliable(air) && c in j.inflight
    requires IsWalk(wire, q.ha, c.path) && |c.path| <= MAX_LINKS && c.hdr == Stamp(hdr, c.path)
    ensures StaysOnline(j.hubs, Hop(wire, j, c, pdu, air).hubs)
  {
    hide Hop, NetOk, Settled, Steady, Requests;
    var r := HopState(wire, q, hdr, pdu, air, j, c);
  }

  lemma LaunchOnline(wire: Wiring, hubs: map<HubId, HubState>, q: Request, src: nat, hdr: Hdr, pdu: seq<Byte>, air: Air)
    requires MayConnect(wire, hubs, q, src, air) && Requests(q, hdr, pdu) && Live(hubs[q.ha], src)
    ensures StaysOnline(hubs, Launch(wire, hubs, q.ha, src, hdr, pdu, air).hubs)
  {
    hide Forward, Steady, Requests, HubSane, Reliable, Routes;
    InitiatorIsPlain(wire, hubs, q, src, air);
    RequestHandled(wire, q.ha, q, hdr, pdu, hubs[q.ha], src, air);
  }
}
