/** The hub's tables behave as simple maps, and its traffic follows them: lookups
    refine an address map, connection routes are exactly what the trace says was
    opened and not yet torn down, and fan-out reaches each listener once. */
module HubRouting {
  import opened Wire
  import opened HubModel
  import opened HubInvariants

  // ------------------------------------------------- addresses as a partial map

  ghost function Held(nodes: seq<Node>): set<Addr> {
    set n, x | 0 <= n < |nodes| && x in nodes[n].addrs :: x
  }

  /** Device address -> node that holds it. */
  ghost function Owners(nodes: seq<Node>): map<Addr, int> {
    map x | x in Held(nodes) :: FirstHolder(nodes, x, 0)
  }

  /** Looking an address up in the slot arrays is looking it up in the map. */
  lemma LookupIsOwner(nodes: seq<Node>, addr: Addr)
    requires AddressesOwned(nodes)
    ensures FindByAddr(nodes, addr) == if addr in Owners(nodes) then Owners(nodes)[addr] else -1
    ensures forall n :: 0 <= n < |nodes| ==> (addr in nodes[n].addrs <==> addr in Owners(nodes) && Owners(nodes)[addr] == n)
  {
    forall n | 0 <= n < |nodes| && addr in nodes[n].addrs
      ensures FirstHolder(nodes, addr, 0) == n
    {
      var r := FirstHolder(nodes, addr, 0);
      assert r >= 0;
    }
  }

  /** Hearing node n use an address is one map update: the address moves to n, or,
      when n's own table is full, is lost by whoever held it. */
  lemma AddAddrIsMapUpdate(nodes: seq<Node>, n: nat, addr: Addr)
    requires AddressesOwned(nodes) && n < |nodes| && addr != ZERO_ADDR
    ensures Owners(AddAddr(nodes, n, addr)) ==
      if addr in nodes[n].addrs || |nodes[n].addrs| < MAX_ADDRS_PER_NODE
      then Owners(nodes)[addr := n]
      else Owners(nodes) - {addr}
  {
    AddAddrHoldings(nodes, n, addr);
    var r := AddAddr(nodes, n, addr);
    LookupIsOwner(r, addr);
    assert addr in Owners(r) ==> addr in r[Owners(r)[addr]].addrs;
    forall x | x != addr
      ensures x in Owners(r) <==> x in Owners(nodes)
      ensures x in Owners(r) ==> Owners(r)[x] == Owners(nodes)[x]
    {
      SameOwner(nodes, r, x);
    }
    MapFromPoints(Owners(nodes), Owners(r), addr);
  }

  /** Two maps that agree except at one key. */
  lemma MapFromPoints(m: map<Addr, int>, r: map<Addr, int>, k: Addr)
    requires forall x :: x != k ==> (x in r <==> x in m)
    requires forall x :: x != k && x in r ==> r[x] == m[x]
    ensures r == if k in r then m[k := r[k]] else m - {k}
  {
    var e := if k in r then m[k := r[k]] else m - {k};
    assert forall x :: x in r <==> x in e;
    assert r.Keys == e.Keys;
  }

  lemma SameOwner(a: seq<Node>, b: seq<Node>, x: Addr)
    requires |a| == |b| && AddressesOwned(a) && AddressesOwned(b)
    requires forall n :: 0 <= n < |a| ==> (x in a[n].addrs <==> x in b[n].addrs)
    ensures x in Owners(a) <==> x in Owners(b)
    ensures x in Owners(a) ==> Owners(a)[x] == Owners(b)[x]
  {
    LookupIsOwner(a, x);
    LookupIsOwner(b, x);
    if x in Owners(a) {
      assert x in a[Owners(a)[x]].addrs;
    }
    if x in Owners(b) {
      assert x in b[Owners(b)[x]].addrs;
    }
  }

  /** A frame makes its sender findable under the address it used if and only if the
      address is not the zero address and the sender already held it or had a free
      slot for it. A node that has used eight addresses is never found under a ninth. */
  lemma LearnedIff(nodes: seq<Node>, n: nat, addr: Addr)
    requires AddressesOwned(nodes) && n < |nodes|
    ensures FindByAddr(AddAddr(nodes, n, addr), addr) == n
       <==> addr != ZERO_ADDR && (addr in nodes[n].addrs || |nodes[n].addrs| < MAX_ADDRS_PER_NODE)
  {
    if addr != ZERO_ADDR {
      AddAddrHoldings(nodes, n, addr);
      LookupIsOwner(AddAddr(nodes, n, addr), addr);
    }
  }

  // ---------------------------------------------------- routes as a partial map

  /** Access Address -> (initiator node, advertiser node), -1 for an end not on this hub. */
  ghost function Routes(conns: seq<Conn>): map<nat, (int, int)> {
    if conns == [] then map[]
    else
      var c := conns[|conns| - 1];
      var rest := Routes(conns[..|conns| - 1]);
      if c.active then rest[c.aa := (c.a, c.b)] else rest
  }

  lemma {:induction false} RoutesCarried(conns: seq<Conn>, aa: nat)
    ensures aa in Routes(conns) <==> exists i :: 0 <= i < |conns| && Carries(conns[i], aa)
  {
    if conns != [] {
      var k := |conns| - 1;
      RoutesCarried(conns[..k], aa);
      if aa in Routes(conns[..k]) {
        var i :| 0 <= i < k && Carries(conns[..k][i], aa);
        assert Carries(conns[i], aa);
      }
      forall i | 0 <= i < k && Carries(conns[i], aa) ensures aa in Routes(conns[..k]) {
        assert Carries(conns[..k][i], aa);
      }
      assert aa in Routes(conns) && aa !in Routes(conns[..k]) ==> Carries(conns[k], aa);
    }
  }

  lemma {:induction false} RoutesAt(conns: seq<Conn>, i: nat)
    requires RoutesDistinct(conns) && i < |conns| && conns[i].active
    ensures conns[i].aa in Routes(conns) && Routes(conns)[conns[i].aa] == (conns[i].a, conns[i].b)
  {
    var k := |conns| - 1;
    if i < k {
      RoutesAt(conns[..k], i);
    }
  }

  lemma RoutesOf(conns: seq<Conn>, i: nat)
    requires RoutesDistinct(conns) && i < |conns| && conns[i].active
    ensures conns[i].aa in Routes(conns) && Routes(conns)[conns[i].aa] == (conns[i].a, conns[i].b)
    ensures FindConn(conns, conns[i].aa) == i
  {
    RoutesAt(conns, i);
    assert Carries(conns[i], conns[i].aa);
    var r := FirstConn(conns, conns[i].aa, 0);
    assert r >= 0 && Carries(conns[r], conns[i].aa);
  }

  /** Searching the slot array for an Access Address is looking it up in the map. */
  lemma FindConnIsRoute(conns: seq<Conn>, aa: nat)
    requires RoutesDistinct(conns)
    ensures FindConn(conns, aa) >= 0 <==> aa in Routes(conns)
    ensures FindConn(conns, aa) >= 0 ==>
      var c := conns[FindConn(conns, aa)]; c.active && c.aa == aa && Routes(conns)[aa] == (c.a, c.b)
  {
    RoutesCarried(conns, aa);
    var r := FindConn(conns, aa);
    if r >= 0 {
      RoutesOf(conns, r);
    }
  }

  ghost function Without(m: map<nat, (int, int)>, n: int): map<nat, (int, int)> {
    map aa | aa in m && m[aa].0 != n && m[aa].1 != n :: m[aa]
  }

  lemma {:induction false} DropNodeIsWithout(conns: seq<Conn>, n: int)
    requires RoutesDistinct(conns)
    ensures Routes(DropNode(conns, n)) == Without(Routes(conns), n)
  {
    if conns != [] {
      var k := |conns| - 1;
      DropNodeIsWithout(conns[..k], n);
      assert DropNode(conns, n)[..k] == DropNode(conns[..k], n);
      RoutesCarried(conns[..k], conns[k].aa);
    }
  }

  lemma {:induction false} PutConnIsUpdate(conns: seq<Conn>, i: nat, c: Conn)
    requires i <= |conns| && c.active
    requires forall k :: 0 <= k < |conns| && k != i ==> !Carries(conns[k], c.aa)
    requires i < |conns| && conns[i].active ==> conns[i].aa == c.aa
    ensures Routes(PutConn(conns, i, c)) == Routes(conns)[c.aa := (c.a, c.b)]
  {
    hide Reserved;
    var r := PutConn(conns, i, c);
    var k := |conns| - 1;
    if i < k {
      PutConnIsUpdate(conns[..k], i, c);
      assert r[..k] == PutConn(conns[..k], i, c);
    } else if i == k {
      assert r[..k] == conns[..k];
    } else {
      assert r[..|conns|] == conns;
    }
  }

  // -------------------------------------------- routes are what the trace says

  /** What one observable action does to the routes: a CONNECT_IND sets one, the
      departure of a node's peer tears down every route that names the node. */
  ghost function Apply(m: map<nat, (int, int)>, e: Entry): map<nat, (int, int)> {
    match e
    case Observed(aa, a, _, b) => m[aa := (a, b)]
    case Tapped(_, n, _, o) => if o.Failed? && n >= 0 then Without(m, n) else m
    case Attempt(_, n, _, o) => if o.Failed? && n >= 0 then Without(m, n) else m
    case ModelDrop(_, _) => m
    case Hangup(_, n) => if n >= 0 then Without(m, n) else m
  }

  ghost function Replay(m: map<nat, (int, int)>, log: seq<Entry>): map<nat, (int, int)> {
    if log == [] then m else Apply(Replay(m, log[..|log| - 1]), log[|log| - 1])
  }

  lemma {:induction false} ReplayConcat(m: map<nat, (int, int)>, x: seq<Entry>, y: seq<Entry>)
    ensures Replay(m, x + y) == Replay(Replay(m, x), y)
  {
    if y == [] {
      assert x + y == x;
    } else {
      assert (x + y)[..|x + y| - 1] == x + y[..|y| - 1];
      ReplayConcat(m, x, y[..|y| - 1]);
    }
  }

  /** A piece of a run kept table and trace in step. */
  ghost predicate Tracks(s: HubState, r: Run) {
    Routes(r.s.conns) == Replay(Routes(s.conns), r.log)
  }

  lemma TracksThen(s: HubState, r1: Run, r2: Run)
    requires Tracks(s, r1) && Tracks(r1.s, r2)
    ensures Tracks(s, Run(r2.s, r1.log + r2.log))
  {
    ReplayConcat(Routes(s.conns), r1.log, r2.log);
  }

  lemma PeerCloseTracks(s: HubState, i: nat)
    requires Inv(s) && i < |s.peers| && s.peers[i].open
    ensures Routes(PeerClose(s, i).conns)
         == if s.peers[i].node >= 0 then Without(Routes(s.conns), s.peers[i].node) else Routes(s.conns)
  {
    DropNodeIsWithout(s.conns, s.peers[i].node);
  }

  lemma DeliverTracks(s: HubState, tap: bool, dst: nat, hdr: Hdr, outcome: Outcome)
    requires Inv(s) && dst < |s.peers|
    ensures Tracks(s, Deliver(s, tap, dst, hdr, outcome))
  {
    var log := Deliver(s, tap, dst, hdr, outcome).log;
    if s.peers[dst].open {
      assert log[..0] == [];
      if outcome.Failed? {
        PeerCloseTracks(s, dst);
      }
    }
  }

  lemma AttenuateTracks(s: HubState, dst: nat, n: nat)
    requires Inv(s) && n < |s.nodes|
    ensures Tracks(s, Attenuate(s, dst, n))
  {
    assert Attenuate(s, dst, n).log[..0] == [];
  }

  lemma LoopStepTracks(loop: Loop, s: HubState, src: nat, hdr: Hdr, air: Air, i: nat)
    requires Inv(s) && i < |s.peers|
    ensures Tracks(s, LoopStep(loop, s, src, hdr, air, i))
  {
    DeliverTracks(s, true, i, hdr, air.tap(i));
    DeliverTracks(s, false, i, hdr, air.send(i));
    match air.hear(i)
    case Some(rssi) => DeliverTracks(s, false, i, hdr.(rssi := rssi), air.send(i));
    case None =>
      if s.peers[i].node >= 0 {
        AttenuateTracks(s, i, s.peers[i].node);
      }
  }

  lemma IterateTracks(loop: Loop, s: HubState, src: nat, hdr: Hdr, air: Air, i: nat)
    requires Inv(s) && i <= |s.peers|
    ensures Tracks(s, Iterate(loop, s, src, hdr, air, i))
  {
    hide LoopStep, Iterate, Routes, NodeTable, ConnTable, PeerTable;
    var p := (k: nat, r: Run) => Inv(r.s) && Tracks(s, r);
    forall r: Run, k: nat | InRange(r.s) && k < |r.s.peers| && p(k, r)
      ensures p(k + 1, Then(r, LoopStep(loop, r.s, src, hdr, air, k)))
    {
      LoopStepKeeps(loop, r.s, src, hdr, air, k);
      LoopStepTracks(loop, r.s, src, hdr, air, k);
      TracksThen(s, r, LoopStep(loop, r.s, src, hdr, air, k));
    }
    IterateThreads(p, loop, s, [], src, hdr, air, i);
    var all := Iterate(loop, s, src, hdr, air, i);
    assert Then(Run(s, []), all) == all;
  }

  lemma SnoopTracks(s: HubState, a: int, pdu: seq<Byte>)
    requires Inv(s) && -1 <= a < |s.nodes|
    ensures Tracks(s, SnoopAny(s, a, pdu))
  {
    var parsed := ParseConnectInd(pdu);
    if parsed.Some? && !Reserved(parsed.value.aa) {
      var ind := parsed.value;
      var b := FindByAddr(s.nodes, ind.adva);
      var i := FindConn(s.conns, ind.aa);
      assert [Observed(ind.aa, a, ind.adva, b)][..0] == [];
      if i >= 0 {
        PutConnIsUpdate(s.conns, i, s.conns[i].(a := a, b := b));
      } else if AllocSlot(s.conns).Some? {
        PutConnIsUpdate(s.conns, AllocSlot(s.conns).value, Conn(true, ind.aa, a, b, 0));
      }
    }
  }

  lemma CountPduRoutes(s: HubState, c: nat)
    requires Inv(s) && c < |s.conns| && s.conns[c].active
    ensures Routes(CountPdu(s, c).conns) == Routes(s.conns)
  {
    RoutesOf(s.conns, c);
    PutConnIsUpdate(s.conns, c, CountPdu(s, c).conns[c]);
  }

  lemma ToEndpointTracks(s: HubState, other: int, hdr: Hdr, air: Air)
    requires Inv(s) && -1 <= other < |s.nodes|
    ensures Tracks(s, ToEndpoint(s, other, hdr, air))
  {
    if other >= 0 && s.nodes[other].peer >= 0 {
      var dst := s.nodes[other].peer;
      match air.hear(dst)
      case None => AttenuateTracks(s, dst, other);
      case Some(rssi) => DeliverTracks(s, false, dst, hdr.(rssi := rssi), air.send(dst));
    }
  }

  lemma MirrorTracks(s: HubState, src: nat, hdr: Hdr, air: Air)
    requires Inv(s)
    ensures Tracks(s, Mirror(s, src, hdr, air))
  {
    IterateTracks(Trunks, s, src, hdr, air, 0);
  }

  lemma RouteOnTracks(s: HubState, c: nat, src: nat, a: int, hdr: Hdr, air: Air)
    requires Inv(s) && c < |s.conns| && s.conns[c].active
    ensures Tracks(s, RouteOn(s, c, src, a, hdr, air))
  {
    CountPduKeeps(s, c);
    CountPduRoutes(s, c);
    var t := CountPdu(s, c);
    var other := Opposite(s.conns[c], a);
    var near := ToEndpoint(t, other, hdr, air);
    ToEndpointKeeps(t, other, hdr, air);
    ToEndpointTracks(t, other, hdr, air);
    MirrorTracks(near.s, src, hdr, air);
    TracksThen(t, near, Mirror(near.s, src, hdr, air));
  }

  lemma RouteDataTracks(s: HubState, src: nat, a: int, hdr: Hdr, air: Air)
    requires Inv(s)
    ensures Tracks(s, RouteData(s, src, a, hdr, air))
  {
    var c := FindConn(s.conns, hdr.aa);
    if c < 0 {
      IterateTracks(Trunks, s, src, hdr, air, 0);
    } else {
      FindConnIsRoute(s.conns, hdr.aa);
      RouteOnTracks(s, c, src, a, hdr, air);
    }
  }

  lemma FanOutTracks(s: HubState, src: nat, hdr: Hdr, air: Air)
    requires Inv(s)
    ensures Tracks(s, FanOut(s, src, hdr, air))
  {
    IterateTracks(Fan, s, src, hdr, air, 0);
  }

  lemma BroadcastTracks(s: HubState, src: nat, a: int, hdr: Hdr, pdu: seq<Byte>, air: Air)
    requires Inv(s) && -1 <= a < |s.nodes|
    ensures Tracks(s, Broadcast(s, src, a, hdr, pdu, air))
  {
    var snooped := SnoopAny(s, a, pdu);
    SnoopKeeps(s, a, pdu);
    SnoopTracks(s, a, pdu);
    FanOutTracks(snooped.s, src, hdr, air);
    TracksThen(s, snooped, FanOut(snooped.s, src, hdr, air));
  }

  lemma OverhearTracks(s: HubState, src: nat, a: int, hdr: Hdr, air: Air)
    requires Inv(s) && -1 <= a < |s.nodes|
    ensures Tracks(s, Overhear(s, src, a, hdr, air))
  {
    LearnKeeps(s, a, hdr.txAddr);
    IterateTracks(Taps, Learn(s, a, hdr.txAddr), src, hdr, air, 0);
  }

  lemma DispatchTracks(s: HubState, src: nat, a: int, hdr: Hdr, pdu: seq<Byte>, air: Air)
    requires Inv(s) && -1 <= a < |s.nodes|
    ensures Tracks(s, Dispatch(s, src, a, hdr, pdu, air))
  {
    if hdr.llType == LL_ADV {
      BroadcastTracks(s, src, a, hdr, pdu, air);
    } else if hdr.llType == LL_DATA {
      RouteDataTracks(s, src, a, hdr, air);
    }
  }

  lemma ForwardTracks(s: HubState, src: nat, hdr: Hdr, pdu: seq<Byte>, air: Air)
    requires Inv(s) && src < |s.peers|
    ensures Tracks(s, Forward(s, src, hdr, pdu, air))
  {
    var ttl := Restamp(s.peers[src].bridge, hdr.ttl);
    if ttl.Some? {
      var h := hdr.(ttl := ttl.value);
      var a := s.peers[src].node;
      var tapped := Overhear(s, src, a, h, air);
      OverhearKeeps(s, src, a, h, air);
      OverhearTracks(s, src, a, h, air);
      DispatchTracks(tapped.s, src, a, h, pdu, air);
      TracksThen(s, tapped, Dispatch(tapped.s, src, a, h, pdu, air));
    }
  }

  lemma HangupTracks(s: HubState, p: nat)
    requires Inv(s) && Live(s, p)
    ensures Tracks(s, Run(PeerClose(s, p), [Hangup(p, s.peers[p].node)]))
  {
    assert [Hangup(p, s.peers[p].node)][..0] == [];
    PeerCloseTracks(s, p);
  }

  lemma QuietTracks(s: HubState, e: Event)
    requires Inv(s) && (e.Joined? || e.Greeted? || e.Declared?)
    ensures Tracks(s, Step(s, e))
  {
  }

  lemma StepTracks(s: HubState, e: Event)
    requires Inv(s)
    ensures Tracks(s, Step(s, e))
  {
    match e
    case Joined(bridge) => QuietTracks(s, e);
    case Greeted(p, nid, monitor) => QuietTracks(s, e);
    case Heard(p, hdr, pdu, air) => if Live(s, p) { ForwardTracks(s, p, hdr, pdu, air); }
    case Left(p) => if Live(s, p) { HangupTracks(s, p); }
    case Declared(nid) => QuietTracks(s, e);
  }

  /** In every reachable state the connection array, read as a map, is exactly the
      history: the routes opened by CONNECT_INDs and not torn down since. */
  lemma {:induction false} RoutesAreHistory(events: seq<Event>)
    ensures Routes(After(events).s.conns) == Replay(map[], After(events).log)
  {
    if events != [] {
      var before := After(events[..|events| - 1]);
      RoutesAreHistory(events[..|events| - 1]);
      ReachableInv(events[..|events| - 1]);
      StepTracks(before.s, events[|events| - 1]);
      ReplayConcat(map[], before.log, Step(before.s, events[|events| - 1]).log);
    }
  }

  // ---------------------------------------------------------------- a full table

  /** A well-formed CONNECT_IND is ignored if and only if all 512 entries are in use and none
      of them is for its Access Address. */
  lemma IgnoredIff(s: HubState, a: int, pdu: seq<Byte>)
    requires Inv(s) && -1 <= a < |s.nodes| && IsConnectInd(pdu)
    requires ParseConnectInd(pdu).Some? && !Reserved(ParseConnectInd(pdu).value.aa)
    ensures var aa := ParseConnectInd(pdu).value.aa;
      SnoopAny(s, a, pdu).log == [] <==>
        |s.conns| == MAX_CONNS && (forall i :: 0 <= i < |s.conns| ==> s.conns[i].active) && aa !in Routes(s.conns)
    ensures SnoopAny(s, a, pdu).log == [] ==> SnoopAny(s, a, pdu).s == s
  {
    FindConnIsRoute(s.conns, ParseConnectInd(pdu).value.aa);
    var i := FirstFree(s.conns, 0);
    assert i == |s.conns| <==> forall k :: 0 <= k < |s.conns| ==> s.conns[k].active;
  }
}
