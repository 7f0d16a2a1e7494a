/** The virtual point-to-point link across hubs: what a flooded CONNECT_IND leaves in the
    route tables of all the hubs, and where the data PDUs of the connection then go. */
module Link {
  import opened Wire
  import opened HubModel
  import opened HubInvariants
  import opened HubRouting
  import opened HubTraffic
  import opened Flood
  import opened Network
  import opened Decay

  // ---------------------------------------------- what one frame does to one hub

  /** Entries that leave the routes alone. */
  predicate Neutral(e: Entry) {
    match e
    case Observed(_, _, _, _) => false
    case Tapped(_, _, _, o) => !o.Failed?
    case Attempt(_, _, _, o) => !o.Failed?
    case ModelDrop(_, _) => true
    case Hangup(_, _) => false
  }

  lemma {:induction false} NeutralReplay(m: map<nat, (int, int)>, log: seq<Entry>)
    requires forall e :: e in log ==> Neutral(e)
    ensures Replay(m, log) == m
  {
    if log != [] {
      assert log[|log| - 1] in log;
      NeutralReplay(m, log[..|log| - 1]);
    }
  }

  lemma VerdictsNeutral(loop: Loop, s: HubState, src: nat, hdr: Hdr, air: Air)
    requires Reliable(air)
    ensures forall e :: e in Verdicts(loop, s, src, hdr, air, 0) ==> Neutral(e)
  {
    forall e | e in Verdicts(loop, s, src, hdr, air, 0) ensures Neutral(e) {
      VerdictsMember(loop, s, src, hdr, air, 0, e);
      var d :| 0 <= d < |s.peers| && Selected(loop, s, src, d) && e == Verdict(loop, s, hdr, air, d);
      assert air.send(d).Sent? && air.tap(d).Sent?;
    }
  }

  /** A frame under reliable links keeps the hub in order, and its peers as they are. */
  lemma ForwardKeepsHub(wire: Wiring, h: HubId, s: HubState, src: nat, hdr: Hdr, pdu: seq<Byte>, air: Air)
    requires HubOk(wire, h, s) && Live(s, src) && Reliable(air) && Floods(hdr)
    ensures HubOk(wire, h, Forward(s, src, hdr, pdu, air).s)
    ensures Forward(s, src, hdr, pdu, air).s.peers == s.peers
  {
    ForwardKeeps(s, src, hdr, pdu, air);
    ForwardExact(s, src, hdr, pdu, air);
    ForwardPeers(s, src, hdr, pdu, air);
  }

  lemma ForwardPeers(s: HubState, src: nat, hdr: Hdr, pdu: seq<Byte>, air: Air)
    requires HubInvariants.Inv(s) && Exact(s) && src < |s.peers| && Reliable(air) && Floods(hdr)
    ensures Forward(s, src, hdr, pdu, air).s.peers == s.peers
  {
    var ttl := Restamp(s.peers[src].bridge, hdr.ttl);
    if ttl.Some? {
      var h := hdr.(ttl := ttl.value);
      if h.llType == LL_ADV {
        HandleAdvLog(s, src, s.peers[src].node, h, pdu, air);
      } else {
        DataPeers(s, src, s.peers[src].node, h, pdu, air);
      }
    }
  }

  lemma DataPeers(s: HubState, src: nat, a: int, hdr: Hdr, pdu: seq<Byte>, air: Air)
    requires InRange(s) && -1 <= a < |s.nodes| && Reliable(air) && hdr.llType == LL_DATA
    ensures Handle(s, src, a, hdr, pdu, air).s.peers == s.peers
  {
    OverhearReliable(s, src, a, hdr, air);
    var t := Overhear(s, src, a, hdr, air).s;
    var c := FindConn(t.conns, hdr.aa);
    if c < 0 {
      TrunksReliable(t, src, hdr, air);
    } else {
      var u := ToEndpoint(CountPdu(t, c), Opposite(t.conns[c], a), hdr, air).s;
      EndpointReliable(CountPdu(t, c), Opposite(t.conns[c], a), hdr, air);
      TrunksReliable(u, src, hdr, air);
    }
  }

  lemma EndpointReliable(s: HubState, n: int, hdr: Hdr, air: Air)
    requires InRange(s) && -1 <= n < |s.nodes| && Reliable(air)
    ensures ToEndpoint(s, n, hdr, air).s.peers == s.peers
  {
    if n >= 0 && s.nodes[n].peer >= 0 {
      var dst := s.nodes[n].peer;
      assert air.hear(dst).Some? && air.send(dst).Sent?;
    }
  }

  lemma TrunksReliable(s: HubState, src: nat, hdr: Hdr, air: Air)
    requires InRange(s) && Reliable(air)
    ensures Iterate(Trunks, s, src, hdr, air, 0).s.peers == s.peers
  {
    forall d | 0 <= d < |s.peers| ensures Iterate(Trunks, s, src, hdr, air, 0).s.peers[d] == s.peers[d] {
      IterateCloses(Trunks, s, src, hdr, air, 0, d);
      assert air.send(d).Sent?;
    }
  }

  /** A data PDU leaves the routes as they are. */
  lemma DataRoutes(s: HubState, src: nat, hdr: Hdr, pdu: seq<Byte>, air: Air)
    requires HubInvariants.Inv(s) && Exact(s) && Live(s, src) && Reliable(air) && hdr.llType == LL_DATA
    ensures Routes(Forward(s, src, hdr, pdu, air).s.conns) == Routes(s.conns)
  {
    ForwardTracks(s, src, hdr, pdu, air);
    var ttl := Restamp(s.peers[src].bridge, hdr.ttl);
    if ttl.Some? {
      var h := hdr.(ttl := ttl.value);
      DataLog(s, src, s.peers[src].node, h, pdu, air);
      VerdictsNeutral(Taps, s, src, h, air);
      VerdictsNeutral(Trunks, s, src, h, air);
      var n := Target(Routes(s.conns), hdr.aa, s.peers[src].node);
      EndpointNeutral(s, n, h, air);
      NeutralReplay(Routes(s.conns), Forward(s, src, hdr, pdu, air).log);
    }
  }

  lemma EndpointNeutral(s: HubState, n: int, hdr: Hdr, air: Air)
    requires InRange(s) && -1 <= n < |s.nodes| && Reliable(air)
    ensures forall e :: e in EndpointPart(s, n, hdr, air) ==> Neutral(e)
  {
    if n >= 0 && s.nodes[n].peer >= 0 {
      assert air.hear(s.nodes[n].peer).Some? && air.send(s.nodes[n].peer).Sent?;
    }
  }

  // ------------------------------------------------------- receipts at one hub

  lemma {:induction false} ReceiptsConcat(h: HubId, x: seq<Entry>, y: seq<Entry>)
    ensures Receipts(h, x + y) == Receipts(h, x) + Receipts(h, y)
  {
    if y == [] {
      assert x + y == x;
    } else {
      assert (x + y)[..|x + y| - 1] == x + y[..|y| - 1];
      ReceiptsConcat(h, x, y[..|y| - 1]);
    }
  }

  lemma {:induction false} NoReceipts(h: HubId, log: seq<Entry>)
    requires forall e :: e in log ==> !(e.Attempt? && e.node >= 0)
    ensures Receipts(h, log) == multiset{}
  {
    if log != [] {
      assert log[|log| - 1] in log;
      NoReceipts(h, log[..|log| - 1]);
    }
  }

  lemma VerdictsUnbound(loop: Loop, s: HubState, src: nat, hdr: Hdr, air: Air)
    requires InRange(s) && Exact(s) && loop != Fan
    ensures forall e :: e in Verdicts(loop, s, src, hdr, air, 0) ==> !(e.Attempt? && e.node >= 0)
  {
    forall e | e in Verdicts(loop, s, src, hdr, air, 0) ensures !(e.Attempt? && e.node >= 0) {
      VerdictsMember(loop, s, src, hdr, air, 0, e);
    }
  }

  /** The node that hub s delivers a data PDU to when it comes from node a (-1: over a
      bridge); -1 when there is none or it is offline. */
  ghost function Due(s: HubState, aa: nat, a: int): int {
    var n := Target(Routes(s.conns), aa, a);
    if 0 <= n < |s.nodes| && s.nodes[n].peer >= 0 then n else -1
  }

  /** One receipt, or none. */
  ghost function One(h: HubId, n: int): multiset<(HubId, int)> {
    if n >= 0 then multiset{(h, n)} else multiset{}
  }

  /** The only local node that gets a data PDU is the one it is due to, and over reliable
      links that one does. */
  lemma DataReceipts(h: HubId, s: HubState, src: nat, a: int, hdr: Hdr, pdu: seq<Byte>, air: Air)
    requires HubInvariants.Inv(s) && Exact(s) && -1 <= a < |s.nodes| && hdr.llType == LL_DATA
    ensures var got := Receipts(h, Handle(s, src, a, hdr, pdu, air).log);
      && got <= One(h, Due(s, hdr.aa, a))
      && (Reliable(air) ==> got == One(h, Due(s, hdr.aa, a)))
  {
    hide Handle;
    var n := Target(Routes(s.conns), hdr.aa, a);
    DataLog(s, src, a, hdr, pdu, air);
    var taps, mid, trunks := Verdicts(Taps, s, src, hdr, air, 0), EndpointPart(s, n, hdr, air), Verdicts(Trunks, s, src, hdr, air, 0);
    VerdictsUnbound(Taps, s, src, hdr, air);
    VerdictsUnbound(Trunks, s, src, hdr, air);
    NoReceipts(h, taps);
    NoReceipts(h, trunks);
    ReceiptsConcat(h, mid, trunks);
    ReceiptsConcat(h, taps, mid + trunks);
    EndpointReceipt(h, s, n, hdr, air);
  }

  lemma EndpointReceipt(h: HubId, s: HubState, n: int, hdr: Hdr, air: Air)
    requires InRange(s) && -1 <= n < |s.nodes|
    ensures var got := Receipts(h, EndpointPart(s, n, hdr, air));
      var one := if n >= 0 && s.nodes[n].peer >= 0 then multiset{(h, n)} else multiset{};
      got <= one && (Reliable(air) ==> got == one)
  {
    if n >= 0 && s.nodes[n].peer >= 0 {
      assert Reliable(air) ==> air.hear(s.nodes[n].peer).Some? && air.send(s.nodes[n].peer).Sent?;
      assert EndpointPart(s, n, hdr, air)[..0] == [];
    }
  }

  /** Who gets a data PDU at the hub where a local socket sends it. */
  lemma SentReceipts(h: HubId, s: HubState, src: nat, hdr: Hdr, pdu: seq<Byte>, air: Air)
    requires HubInvariants.Inv(s) && Exact(s) && Live(s, src) && !s.peers[src].bridge && hdr.llType == LL_DATA
    ensures var got := Receipts(h, Forward(s, src, hdr, pdu, air).log); var one := One(h, Due(s, hdr.aa, s.peers[src].node));
      got <= one && (Reliable(air) ==> got == one)
  {
    hide Handle, Forward;
    ForwardPlain(s, src, hdr, pdu, air);
    DataReceipts(h, s, src, s.peers[src].node, hdr.(ttl := FRESH_TTL), pdu, air);
  }

  /** Who gets a data PDU at a hub where a copy of it arrives. */
  lemma ArrivalReceipts(wire: Wiring, s: HubState, c: Copy, hdr: Hdr, pdu: seq<Byte>, air: Air)
    requires Wired(wire) && Nonempty(wire, c.path) && HubOk(wire, Arrival(wire, c.path).hub, s)
    requires c.hdr == Stamp(hdr, c.path) && |c.path| <= MAX_LINKS && hdr.llType == LL_DATA && Reliable(air)
    ensures var at := Arrival(wire, c.path);
      && Bridged(s, at.slot)
      && Receipts(at.hub, Forward(s, at.slot, c.hdr, pdu, air).log)
         == if |c.path| <= MAX_HOPS then One(at.hub, Due(s, hdr.aa, -1)) else multiset{}
  {
    hide Handle, Forward;
    var at := Arrival(wire, c.path);
    ArrivalPort(wire, s, c.path);
    ArrivalForward(s, at.slot, c, hdr, pdu, air);
    if |c.path| <= MAX_HOPS {
      DataReceipts(at.hub, s, at.slot, -1, hdr.(ttl := MAX_HOPS - |c.path|), pdu, air);
    }
  }

  // --------------------------------------------------- where the hubs send a PDU

  /** At each hub, the node that a data PDU on aa is delivered to when it comes over a
      bridge (-1: none). */
  ghost predicate Aimed(hubs: map<HubId, HubState>, aa: nat, aims: map<HubId, int>) {
    hubs.Keys == aims.Keys && forall h :: h in hubs ==> Due(hubs[h], aa, -1) == aims[h]
  }

  /** A data PDU on the Access Address. */
  predicate OnLink(aa: nat, hdr: Hdr) {
    hdr.llType == LL_DATA && hdr.aa == aa
  }

  lemma NetOkAfter(wire: Wiring, hubs: map<HubId, HubState>, h: HubId, s: HubState)
    requires NetOk(wire, hubs) && h in hubs && HubOk(wire, h, s)
    ensures NetOk(wire, hubs[h := s])
  {
    hide HubSane, Wired;
    var after := hubs[h := s];
    forall k | k in after ensures HubOk(wire, k, after[k]) {
    }
  }

  /** A hub that keeps its peers and routes keeps its nodes online, and where its PDUs go. */
  lemma DueSame(s: HubState, t: HubState, aa: nat, a: int)
    requires HubInvariants.Inv(s) && Exact(s) && HubInvariants.Inv(t) && Exact(t)
    requires s.peers == t.peers && |s.nodes| == |t.nodes| && Routes(s.conns) == Routes(t.conns)
    ensures Due(t, aa, a) == Due(s, aa, a)
  {
    StillOnline(s, t);
    StillOnline(t, s);
  }

  lemma StillOnline(s: HubState, t: HubState)
    requires HubInvariants.Inv(s) && Exact(s) && HubInvariants.Inv(t) && s.peers == t.peers && |s.nodes| == |t.nodes|
    ensures forall n :: 0 <= n < |s.nodes| && s.nodes[n].peer >= 0 ==> t.nodes[n].peer >= 0
  {
    forall n | 0 <= n < |s.nodes| && s.nodes[n].peer >= 0 ensures t.nodes[n].peer >= 0 {
      assert t.peers[s.nodes[n].peer].node == n;
    }
  }

  /** A data frame over reliable links leaves the hub, and the aims of every address, as
      they are. */
  lemma FrameKeepsAim(wire: Wiring, h: HubId, s: HubState, src: nat, hdr: Hdr, pdu: seq<Byte>, air: Air, aa: nat)
    requires HubOk(wire, h, s) && Live(s, src) && Reliable(air) && hdr.llType == LL_DATA
    ensures var r := Forward(s, src, hdr, pdu, air).s; HubOk(wire, h, r) && Due(r, aa, -1) == Due(s, aa, -1)
  {
    hide Forward;
    ForwardKeepsHub(wire, h, s, src, hdr, pdu, air);
    DataRoutes(s, src, hdr, pdu, air);
    DueSame(s, Forward(s, src, hdr, pdu, air).s, aa, -1);
  }

  lemma AimedAfter(wire: Wiring, hubs: map<HubId, HubState>, aa: nat, aims: map<HubId, int>, h: HubId, s: HubState)
    requires NetOk(wire, hubs) && Aimed(hubs, aa, aims) && h in hubs
    requires HubOk(wire, h, s) && Due(s, aa, -1) == Due(hubs[h], aa, -1)
    ensures NetOk(wire, hubs[h := s]) && Aimed(hubs[h := s], aa, aims)
  {
    hide HubOk, HubSane, Due;
    NetOkAfter(wire, hubs, h, s);
    assert hubs[h := s].Keys == hubs.Keys;
  }

  // ------------------------------------------------------------- data journeys

  /** The walks taken in that delivered the PDU to node n of hub h. */
  ghost function Delivering(wire: Wiring, aims: map<HubId, int>, done: set<Walk>, h: HubId, n: int): set<Walk> {
    set w | w in done && Delivers(wire, aims, w, h, n)
  }

  ghost predicate Delivers(wire: Wiring, aims: map<HubId, int>, w: Walk, h: HubId, n: int) {
    Nonempty(wire, w) && |w| <= MAX_HOPS && Arrival(wire, w).hub == h && h in aims && aims[h] == n && n >= 0
  }

  /** How often node n of hub h has got a PDU that was sent at hub o and delivered there to
      node `local` at once (-1: to nobody). */
  ghost function Count(wire: Wiring, o: HubId, local: int, aims: map<HubId, int>, done: set<Walk>, h: HubId, n: int): nat {
    One(o, local)[(h, n)] + |Delivering(wire, aims, done, h, n)|
  }

  ghost predicate DataInv(wire: Wiring, o: HubId, local: int, aa: nat, aims: map<HubId, int>, hdr: Hdr, j: Journey) {
    && NetOk(wire, j.hubs) && Aimed(j.hubs, aa, aims) && Tracking(wire, o, hdr, j)
    && Counted(wire, o, local, aims, j.done, j.got)
  }

  ghost predicate Counted(wire: Wiring, o: HubId, local: int, aims: map<HubId, int>, done: set<Walk>,
                          got: multiset<(HubId, int)>) {
    forall h: HubId, n: int :: got[(h, n)] == Count(wire, o, local, aims, done, h, n)
  }

  /** A local socket of hub o sends. */
  ghost predicate MaySend(wire: Wiring, hubs: map<HubId, HubState>, o: HubId, src: nat, air: Air) {
    && NetOk(wire, hubs) && Reliable(air)
    && o in hubs && Live(hubs[o], src) && !hubs[o].peers[src].bridge
  }

  ghost predicate DataStart(wire: Wiring, o: HubId, local: int, aa: nat, aims: map<HubId, int>, hdr: Hdr,
                            pdu: seq<Byte>, j: Journey) {
    exists hubs: map<HubId, HubState>, src: nat, air: Air :: DataStartBy(wire, o, local, aa, aims, hdr, pdu, j, hubs, src, air)
  }

  ghost predicate DataStartBy(wire: Wiring, o: HubId, local: int, aa: nat, aims: map<HubId, int>, hdr: Hdr,
                              pdu: seq<Byte>, j: Journey, hubs: map<HubId, HubState>, src: nat, air: Air) {
    && MaySend(wire, hubs, o, src, air) && Aimed(hubs, aa, aims)
    && local == Due(hubs[o], aa, hubs[o].peers[src].node)
    && j == Launch(wire, hubs, o, src, hdr, pdu, air)
  }

  /** What may happen next while a data PDU is on its way: one of its copies arrives, or the
      hubs change in any way that keeps the network in order and the PDU's aims. */
  ghost predicate DataMove(wire: Wiring, aa: nat, aims: map<HubId, int>, pdu: seq<Byte>, j: Journey, k: Journey) {
    Hops(wire, pdu, j, k) || Elsewhere(wire, aa, aims, j, k)
  }

  ghost predicate Elsewhere(wire: Wiring, aa: nat, aims: map<HubId, int>, j: Journey, k: Journey) {
    k == j.(hubs := k.hubs) && NetOk(wire, k.hubs) && Aimed(k.hubs, aa, aims)
  }

  /** A data PDU followed from hub o through every interleaving. */
  ghost predicate DataJourney(wire: Wiring, o: HubId, local: int, aa: nat, aims: map<HubId, int>, hdr: Hdr,
                              pdu: seq<Byte>, js: seq<Journey>) {
    && js != [] && OnLink(aa, hdr)
    && DataStart(wire, o, local, aa, aims, hdr, pdu, js[0])
    && forall i :: 0 < i < |js| ==> DataMove(wire, aa, aims, pdu, js[i - 1], js[i])
  }

  lemma LaunchData(wire: Wiring, hubs: map<HubId, HubState>, o: HubId, src: nat, aa: nat, aims: map<HubId, int>,
                   hdr: Hdr, pdu: seq<Byte>, air: Air)
    requires MaySend(wire, hubs, o, src, air) && Aimed(hubs, aa, aims) && OnLink(aa, hdr)
    ensures DataInv(wire, o, Due(hubs[o], aa, hubs[o].peers[src].node), aa, aims, hdr,
                    Launch(wire, hubs, o, src, hdr, pdu, air))
  {
    hide Forward;
    var s := hubs[o];
    assert HubOk(wire, o, s);
    LaunchTracks(wire, hubs, o, src, hdr, pdu, air);
    FrameKeepsAim(wire, o, s, src, hdr, pdu, air, aa);
    AimedAfter(wire, hubs, aa, aims, o, Forward(s, src, hdr, pdu, air).s);
    SentReceipts(o, s, src, hdr, pdu, air);
    NothingYet(wire, o, Due(s, aa, s.peers[src].node), aims);
  }

  lemma NothingYet(wire: Wiring, o: HubId, local: int, aims: map<HubId, int>)
    ensures Counted(wire, o, local, aims, {}, One(o, local))
  {
    forall h: HubId, n: int ensures Delivering(wire, aims, {}, h, n) == {} {
    }
  }

  lemma HopReceipts(wire: Wiring, o: HubId, local: int, aa: nat, aims: map<HubId, int>, hdr: Hdr, pdu: seq<Byte>, air: Air,
                    j: Journey, c: Copy)
    requires DataInv(wire, o, local, aa, aims, hdr, j) && OnLink(aa, hdr) && Reliable(air)
    requires c in j.inflight && Nonempty(wire, c.path)
    ensures var k := Hop(wire, j, c, pdu, air); var h := Arrival(wire, c.path).hub;
      && NetOk(wire, k.hubs) && Aimed(k.hubs, aa, aims)
      && h in aims && k.got == j.got + if |c.path| <= MAX_HOPS then One(h, aims[h]) else multiset{}
  {
    hide Forward;
    var at := Arrival(wire, c.path);
    var s := j.hubs[at.hub];
    assert c.path in Paths(j.inflight);
    assert HubOk(wire, at.hub, s);
    ArrivalReceipts(wire, s, c, hdr, pdu, air);
    FrameKeepsAim(wire, at.hub, s, at.slot, c.hdr, pdu, air, aa);
    AimedAfter(wire, j.hubs, aa, aims, at.hub, Forward(s, at.slot, c.hdr, pdu, air).s);
  }

  lemma CountKept(wire: Wiring, o: HubId, local: int, aims: map<HubId, int>, done: set<Walk>, w: Walk, h: HubId, n: int)
    requires Nonempty(wire, w) && w !in done
    ensures Count(wire, o, local, aims, done + {w}, h, n)
         == Count(wire, o, local, aims, done, h, n) + if Delivers(wire, aims, w, h, n) then 1 else 0
  {
    assert Delivering(wire, aims, done + {w}, h, n)
        == Delivering(wire, aims, done, h, n) + if Delivers(wire, aims, w, h, n) then {w} else {};
  }

  lemma CountGrows(wire: Wiring, o: HubId, local: int, aims: map<HubId, int>, done: set<Walk>, w: Walk,
                   got: multiset<(HubId, int)>)
    requires Counted(wire, o, local, aims, done, got) && Nonempty(wire, w) && w !in done && Arrival(wire, w).hub in aims
    ensures var h := Arrival(wire, w).hub;
      Counted(wire, o, local, aims, done + {w}, got + if |w| <= MAX_HOPS then One(h, aims[h]) else multiset{})
  {
    hide Count;
    var here := Arrival(wire, w).hub;
    var more := if |w| <= MAX_HOPS then One(here, aims[here]) else multiset{};
    forall h: HubId, n: int ensures (got + more)[(h, n)] == Count(wire, o, local, aims, done + {w}, h, n) {
      CountKept(wire, o, local, aims, done, w, h, n);
      assert more[(h, n)] == if Delivers(wire, aims, w, h, n) then 1 else 0;
    }
  }

  lemma HopData(wire: Wiring, o: HubId, local: int, aa: nat, aims: map<HubId, int>, hdr: Hdr, pdu: seq<Byte>, air: Air,
                j: Journey, c: Copy)
    requires DataInv(wire, o, local, aa, aims, hdr, j) && OnLink(aa, hdr) && Reliable(air)
    requires c in j.inflight && Nonempty(wire, c.path)
    ensures DataInv(wire, o, local, aa, aims, hdr, Hop(wire, j, c, pdu, air))
  {
    hide Hop, Aimed, NetOk, Counted;
    HopTracks(wire, o, hdr, j, c, pdu, air);
    HopReceipts(wire, o, local, aa, aims, hdr, pdu, air, j, c);
    assert c.path in Paths(j.inflight) && c.path !in j.done;
    CountGrows(wire, o, local, aims, j.done, c.path, j.got);
  }

  lemma DataMoveKeeps(wire: Wiring, o: HubId, local: int, aa: nat, aims: map<HubId, int>, hdr: Hdr, pdu: seq<Byte>,
                      j: Journey, k: Journey)
    requires OnLink(aa, hdr) && DataInv(wire, o, local, aa, aims, hdr, j) && DataMove(wire, aa, aims, pdu, j, k)
    ensures DataInv(wire, o, local, aa, aims, hdr, k)
  {
    hide Hop, Aimed, NetOk, Counted;
    if Hops(wire, pdu, j, k) {
      var c: Copy, air: Air :| HopsBy(wire, pdu, j, k, c, air);
      HopData(wire, o, local, aa, aims, hdr, pdu, air, j, c);
    }
  }

  lemma DataStartInv(wire: Wiring, o: HubId, local: int, aa: nat, aims: map<HubId, int>, hdr: Hdr, pdu: seq<Byte>, j: Journey)
    requires OnLink(aa, hdr) && DataStart(wire, o, local, aa, aims, hdr, pdu, j)
    ensures DataInv(wire, o, local, aa, aims, hdr, j)
  {
    hide Launch, Aimed, NetOk;
    var hubs: map<HubId, HubState>, src: nat, air: Air :| DataStartBy(wire, o, local, aa, aims, hdr, pdu, j, hubs, src, air);
    LaunchData(wire, hubs, o, src, aa, aims, hdr, pdu, air);
  }

  lemma {:induction false} DataJourneyInv(wire: Wiring, o: HubId, local: int, aa: nat, aims: map<HubId, int>, hdr: Hdr,
                                          pdu: seq<Byte>, js: seq<Journey>, i: nat)
    requires DataJourney(wire, o, local, aa, aims, hdr, pdu, js) && i < |js|
    ensures DataInv(wire, o, local, aa, aims, hdr, js[i])
  {
    hide DataMove, DataStart, DataInv;
    if i == 0 {
      DataStartInv(wire, o, local, aa, aims, hdr, pdu, js[0]);
    } else {
      DataJourneyInv(wire, o, local, aa, aims, hdr, pdu, js, i - 1);
      DataMoveKeeps(wire, o, local, aa, aims, hdr, pdu, js[i - 1], js[i]);
    }
  }

  /** How often a PDU sent at hub o reaches node n of hub h in all. */
  ghost function Copies(wire: Wiring, o: HubId, local: int, aims: map<HubId, int>, h: HubId, n: int): nat {
    One(o, local)[(h, n)] + if n >= 0 && h in aims && aims[h] == n then |WalksTo(wire, o, h)| else 0
  }

  /** In any network, bridge loops included, over every interleaving: a data PDU reaches a
      node once for its delivery at the sender's own hub, if that is where it is due, and
      once more for every walk of at most eight links to a hub that sends it on to that
      node. At no moment has it been there more often. */
  lemma OncePerWalk(wire: Wiring, o: HubId, local: int, aa: nat, aims: map<HubId, int>, hdr: Hdr, pdu: seq<Byte>,
                    js: seq<Journey>, i: nat, h: HubId, n: int)
    requires DataJourney(wire, o, local, aa, aims, hdr, pdu, js) && i < |js|
    ensures js[i].got[(h, n)] <= Copies(wire, o, local, aims, h, n)
    ensures js[i].inflight == {} ==> js[i].got[(h, n)] == Copies(wire, o, local, aims, h, n)
  {
    hide DataJourney, Aimed, NetOk;
    DataJourneyInv(wire, o, local, aa, aims, hdr, pdu, js, i);
    var f := Process(Paths(js[i].inflight), js[i].done);
    DeliveringAtMost(wire, o, aims, f, h, n);
    if js[i].inflight == {} && n >= 0 && h in aims && aims[h] == n {
      assert f.inflight == {};
      DeliveringWalks(wire, o, aims, f, h, n);
    }
  }

  lemma DeliveringAtMost(wire: Wiring, o: HubId, aims: map<HubId, int>, f: Process, h: HubId, n: int)
    requires Part(wire, o, f)
    ensures var got := Delivering(wire, aims, f.done, h, n);
      if n >= 0 && h in aims && aims[h] == n then |got| <= |WalksTo(wire, o, h)| else got == {}
  {
    var got := Delivering(wire, aims, f.done, h, n);
    if n >= 0 && h in aims && aims[h] == n {
      forall w | w in got ensures w in WalksTo(wire, o, h) {
        WalksToIff(wire, o, h, w);
      }
      SubsetSize(got, WalksTo(wire, o, h));
    }
  }

  lemma DeliveringWalks(wire: Wiring, o: HubId, aims: map<HubId, int>, f: Process, h: HubId, n: int)
    requires Flood.Inv(wire, o, f) && f.inflight == {} && n >= 0 && h in aims && aims[h] == n
    ensures Delivering(wire, aims, f.done, h, n) == WalksTo(wire, o, h)
  {
    var got := Delivering(wire, aims, f.done, h, n);
    forall w ensures w in got <==> w in WalksTo(wire, o, h) {
      WalksToIff(wire, o, h, w);
      QuietMeansComplete(wire, o, f, w);
    }
  }

  // -------------------------------------------------------- a connection's route

  /** A connection between node `na` of hub `ha`, its initiator, and node `nb` of hub `hb`. */
  datatype Conn2 = Conn2(aa: nat, ha: HubId, na: int, hb: HubId, nb: int)

  ghost predicate Online(hubs: map<HubId, HubState>, h: HubId, n: int) {
    h in hubs && 0 <= n < |hubs[h].nodes| && hubs[h].nodes[n].peer >= 0
  }

  /** What the connection's entry reads at hub h. */
  function Expected(l: Conn2, h: HubId): (int, int) {
    (if h == l.ha then l.na else -1, if h == l.hb then l.nb else -1)
  }

  /** Every hub routes the connection, or does not know it; its two end hubs know it. */
  ghost predicate Carried(hubs: map<HubId, HubState>, l: Conn2) {
    && Online(hubs, l.ha, l.na) && Online(hubs, l.hb, l.nb)
    && (l.ha == l.hb ==> l.na != l.nb)
    && (forall h :: h in hubs && l.aa in Routes(hubs[h].conns) ==> Routes(hubs[h].conns)[l.aa] == Expected(l, h))
    && l.aa in Routes(hubs[l.ha].conns) && l.aa in Routes(hubs[l.hb].conns)
  }

  /** The hub and node of one end. */
  function End(l: Conn2, initiator: bool): (HubId, int) {
    if initiator then (l.ha, l.na) else (l.hb, l.nb)
  }

  /** Where a PDU of the connection is delivered when it comes to hub h over a bridge. */
  function AimOf(l: Conn2, h: HubId): int {
    if h == l.ha then l.na else if h == l.hb then l.nb else -1
  }

  ghost function LinkAims(l: Conn2, ids: set<HubId>): map<HubId, int> {
    map h | h in ids :: AimOf(l, h)
  }

  /** Where it is delivered at the hub of the end that sends it. */
  function LocalOf(l: Conn2, initiator: bool): int {
    if l.ha == l.hb then End(l, !initiator).1 else -1
  }

  /** A connection that is up sends the PDUs of either end to the other end and to nobody
      else: at the sender's hub, and at any hub where a copy arrives that is not the
      sender's. */
  lemma CarriedAims(hubs: map<HubId, HubState>, l: Conn2, initiator: bool)
    requires Carried(hubs, l)
    ensures Aimed(hubs, l.aa, LinkAims(l, hubs.Keys))
    ensures Due(hubs[End(l, initiator).0], l.aa, End(l, initiator).1) == LocalOf(l, initiator)
  {
    forall h | h in hubs ensures Due(hubs[h], l.aa, -1) == AimOf(l, h) {
      AimAt(hubs, l, h);
    }
  }

  lemma AimAt(hubs: map<HubId, HubState>, l: Conn2, h: HubId)
    requires Carried(hubs, l) && h in hubs
    ensures Due(hubs[h], l.aa, -1) == AimOf(l, h)
  {
  }

  /** One end of a connection that is up has sent a PDU, over its own socket. */
  ghost predicate LinkStart(wire: Wiring, l: Conn2, initiator: bool, hdr: Hdr, pdu: seq<Byte>, j: Journey) {
    exists hubs: map<HubId, HubState>, src: nat, air: Air :: LinkStartBy(wire, l, initiator, hdr, pdu, j, hubs, src, air)
  }

  ghost predicate LinkStartBy(wire: Wiring, l: Conn2, initiator: bool, hdr: Hdr, pdu: seq<Byte>, j: Journey,
                              hubs: map<HubId, HubState>, src: nat, air: Air) {
    var x := End(l, initiator);
    && Carried(hubs, l) && MaySend(wire, hubs, x.0, src, air) && src == hubs[x.0].nodes[x.1].peer
    && j == Launch(wire, hubs, x.0, src, hdr, pdu, air)
  }

  ghost predicate LinkJourney(wire: Wiring, l: Conn2, initiator: bool, hdr: Hdr, pdu: seq<Byte>, js: seq<Journey>) {
    && js != [] && OnLink(l.aa, hdr)
    && LinkStart(wire, l, initiator, hdr, pdu, js[0])
    && forall i :: 0 < i < |js| ==> DataMove(wire, l.aa, LinkAims(l, js[0].hubs.Keys), pdu, js[i - 1], js[i])
  }

  lemma LinkIsData(wire: Wiring, l: Conn2, initiator: bool, hdr: Hdr, pdu: seq<Byte>, js: seq<Journey>)
    requires LinkJourney(wire, l, initiator, hdr, pdu, js)
    ensures DataJourney(wire, End(l, initiator).0, LocalOf(l, initiator), l.aa, LinkAims(l, js[0].hubs.Keys), hdr, pdu, js)
  {
    hide DataMove, Aimed, NetOk, Forward;
    var hubs: map<HubId, HubState>, src: nat, air: Air :| LinkStartBy(wire, l, initiator, hdr, pdu, js[0], hubs, src, air);
    var x := End(l, initiator);
    CarriedAims(hubs, l, initiator);
    SenderBound(wire, hubs, x.0, x.1);
    assert js[0].hubs.Keys == hubs.Keys;
    assert DataStartBy(wire, x.0, LocalOf(l, initiator), l.aa, LinkAims(l, js[0].hubs.Keys), hdr, pdu, js[0], hubs, src, air);
  }

  lemma SenderBound(wire: Wiring, hubs: map<HubId, HubState>, h: HubId, n: int)
    requires NetOk(wire, hubs) && Online(hubs, h, n)
    ensures hubs[h].nodes[n].peer < |hubs[h].peers| && hubs[h].peers[hubs[h].nodes[n].peer].node == n
  {
    assert HubOk(wire, h, hubs[h]);
  }

  /** How often a PDU that one end of a connection sends reaches node e in all. */
  ghost function Arriving(wire: Wiring, l: Conn2, initiator: bool, e: (HubId, int)): nat {
    var x := End(l, initiator);
    One(x.0, LocalOf(l, initiator))[e]
    + if (e.0 == l.ha || e.0 == l.hb) && AimOf(l, e.0) == e.1 then |WalksTo(wire, x.0, e.0)| else 0
  }

  lemma LinkArrives(wire: Wiring, l: Conn2, initiator: bool, hdr: Hdr, pdu: seq<Byte>, js: seq<Journey>, i: nat, e: (HubId, int))
    requires LinkJourney(wire, l, initiator, hdr, pdu, js) && i < |js|
    ensures js[i].got[e] <= Arriving(wire, l, initiator, e)
    ensures js[i].inflight == {} ==> js[i].got[e] == Arriving(wire, l, initiator, e)
  {
    hide DataJourney, LinkJourney, WalksTo;
    LinkIsData(wire, l, initiator, hdr, pdu, js);
    FarEndKnown(wire, l, initiator, hdr, pdu, js);
    assert e == (e.0, e.1);
    OncePerWalk(wire, End(l, initiator).0, LocalOf(l, initiator), l.aa, LinkAims(l, js[0].hubs.Keys), hdr, pdu, js, i, e.0, e.1);
  }

  /** The far end gets a PDU once, and nobody else gets it, exactly if there is one way. */
  lemma ArrivingIff(wire: Wiring, l: Conn2, initiator: bool, all: multiset<(HubId, int)>)
    requires l.na >= 0 && l.nb >= 0 && (l.ha == l.hb ==> l.na != l.nb)
    requires forall e :: all[e] == Arriving(wire, l, initiator, e)
    ensures var x, y := End(l, initiator), End(l, !initiator);
      && (all <= multiset{y} <==> AtMostOneWay(wire, x.0, y.0))
      && (all == multiset{y} <==> OneWay(wire, x.0, y.0))
  {
    hide WalksTo, Within;
    var x, y := End(l, initiator), End(l, !initiator);
    WithinIff(wire, x.0, x.0);
    var home := (l.ha, l.na);
    assert all[x] == Arriving(wire, l, initiator, x);
    assert all[y] == Arriving(wire, l, initiator, y);
    assert all[home] == Arriving(wire, l, initiator, home);
    if AtMostOneWay(wire, x.0, y.0) {
      forall e ensures all[e] <= multiset{y}[e] && (OneWay(wire, x.0, y.0) ==> all[e] == multiset{y}[e]) {
        assert all[e] == Arriving(wire, l, initiator, e);
      }
    }
  }

  /** In any network, over every interleaving: a data PDU of a connection that is up comes to
      the far end exactly once, and to nobody else, if and only if one walk of at most eight
      links leads to the far end's hub, or it is the sender's own, and none leads back. It
      comes to nobody else and not twice, at no moment, if at most one leads there and none
      back; and if not, that shows when all is quiet. */
  lemma ExactlyOnceIff(wire: Wiring, l: Conn2, initiator: bool, hdr: Hdr, pdu: seq<Byte>, js: seq<Journey>, i: nat)
    requires LinkJourney(wire, l, initiator, hdr, pdu, js) && i < |js|
    ensures var x, y := End(l, initiator), End(l, !initiator);
      && (AtMostOneWay(wire, x.0, y.0) ==> js[i].got <= multiset{y})
      && (js[i].inflight == {} ==> (js[i].got <= multiset{y} <==> AtMostOneWay(wire, x.0, y.0)))
      && (js[i].inflight == {} ==> (js[i].got == multiset{y} <==> OneWay(wire, x.0, y.0)))
  {
    hide LinkJourney, WalksTo, Within, Arriving;
    var x, y := End(l, initiator), End(l, !initiator);
    FarEndKnown(wire, l, initiator, hdr, pdu, js);
    forall e ensures js[i].got[e] <= Arriving(wire, l, initiator, e)
                  && (js[i].inflight == {} ==> js[i].got[e] == Arriving(wire, l, initiator, e)) {
      LinkArrives(wire, l, initiator, hdr, pdu, js, i, e);
    }
    if js[i].inflight == {} {
      ArrivingIff(wire, l, initiator, js[i].got);
    }
    if AtMostOneWay(wire, x.0, y.0) {
      forall e ensures js[i].got[e] <= multiset{y}[e] {
        ArrivingOnce(wire, l, initiator, e);
      }
    }
  }

  lemma ArrivingOnce(wire: Wiring, l: Conn2, initiator: bool, e: (HubId, int))
    requires AtMostOneWay(wire, End(l, initiator).0, End(l, !initiator).0)
    requires l.na >= 0 && l.nb >= 0 && (l.ha == l.hb ==> l.na != l.nb)
    ensures Arriving(wire, l, initiator, e) <= multiset{End(l, !initiator)}[e]
  {
    hide WalksTo, Within;
    WithinIff(wire, End(l, initiator).0, End(l, initiator).0);
  }

  /** So in an acyclic network, over every interleaving: at no moment has a data PDU of a
      connection reached any node but the far end, nor that one twice; and when no copy is
      under way any more it has reached the far end exactly once, if the two hubs are the
      same or at most eight bridges apart, and else not at all. */
  lemma ExactlyOnce(wire: Wiring, l: Conn2, initiator: bool, hdr: Hdr, pdu: seq<Byte>, js: seq<Journey>, i: nat)
    requires Wired(wire) && Acyclic(wire) && LinkJourney(wire, l, initiator, hdr, pdu, js) && i < |js|
    ensures var x := End(l, initiator); var y := End(l, !initiator);
      && js[i].got <= multiset{y}
      && (js[i].inflight == {} ==> js[i].got == if x.0 == y.0 || Within(wire, x.0, y.0) then multiset{y} else multiset{})
  {
    hide LinkJourney, Within, WalksTo, Acyclic, OneWay, AtMostOneWay;
    var x, y := End(l, initiator), End(l, !initiator);
    AcyclicOneWay(wire, x.0, y.0);
    ExactlyOnceIff(wire, l, initiator, hdr, pdu, js, i);
    NoneOrOne(js[i].got, y);
  }

  lemma NoneOrOne<T>(m: multiset<T>, y: T)
    requires m <= multiset{y}
    ensures m == multiset{} || m == multiset{y}
  {
    if y in m {
      assert m[y] == 1;
      assert m == multiset{y};
    } else {
      assert m == multiset{};
    }
  }

  lemma FarEndKnown(wire: Wiring, l: Conn2, initiator: bool, hdr: Hdr, pdu: seq<Byte>, js: seq<Journey>)
    requires LinkJourney(wire, l, initiator, hdr, pdu, js)
    ensures l.ha in js[0].hubs && l.hb in js[0].hubs && (l.ha == l.hb ==> l.na != l.nb) && l.na >= 0 && l.nb >= 0
  {
    hide DataMove, Aimed, NetOk, Forward;
    var hubs: map<HubId, HubState>, src: nat, air: Air :| LinkStartBy(wire, l, initiator, hdr, pdu, js[0], hubs, src, air);
  }

  // ---------------------------------------------------------------- completion

  /** Every PDU under way can come to rest: its journey can be continued, by arrivals only,
      until no copy is under way. */
  lemma {:induction false} LinkCompletes(wire: Wiring, l: Conn2, initiator: bool, hdr: Hdr, pdu: seq<Byte>, js: seq<Journey>, air: Air)
    returns (ks: seq<Journey>)
    requires LinkJourney(wire, l, initiator, hdr, pdu, js) && Reliable(air)
    ensures js <= ks && LinkJourney(wire, l, initiator, hdr, pdu, ks) && ks[|ks| - 1].inflight == {}
    ensures forall i :: |js| <= i < |ks| ==> Hops(wire, pdu, ks[i - 1], ks[i])
    decreases Load(|wire.Keys|, js[|js| - 1].inflight)
  {
    hide DataMove, LinkStart, Hop, Hops, Load, DegreeAtMost, NetOk, LinkAims;
    var j := js[|js| - 1];
    if j.inflight == {} {
      ks := js;
    } else {
      var c :| c in j.inflight;
      var next := LinkHop(wire, l, initiator, hdr, pdu, js, c, air);
      var more := js + [next];
      forall i | 0 < i < |more| ensures DataMove(wire, l.aa, LinkAims(l, js[0].hubs.Keys), pdu, more[i - 1], more[i]) {
        if i < |js| {
          assert more[i - 1] == js[i - 1] && more[i] == js[i];
        }
      }
      assert more[0] == js[0];
      ks := LinkCompletes(wire, l, initiator, hdr, pdu, more, air);
    }
  }

  lemma LinkHop(wire: Wiring, l: Conn2, initiator: bool, hdr: Hdr, pdu: seq<Byte>, js: seq<Journey>, c: Copy, air: Air)
    returns (next: Journey)
    requires js != [] && LinkJourney(wire, l, initiator, hdr, pdu, js) && Reliable(air) && c in js[|js| - 1].inflight
    ensures Hops(wire, pdu, js[|js| - 1], next)
    ensures DataMove(wire, l.aa, LinkAims(l, js[0].hubs.Keys), pdu, js[|js| - 1], next)
    ensures Load(|wire.Keys|, next.inflight) < Load(|wire.Keys|, js[|js| - 1].inflight)
  {
    hide LinkJourney, DataJourney, Hop, Load, DegreeAtMost, NetSane, HubOk, Aimed, Counted;
    var j := js[|js| - 1];
    LinkIsData(wire, l, initiator, hdr, pdu, js);
    DataJourneyInv(wire, End(l, initiator).0, LocalOf(l, initiator), l.aa, LinkAims(l, js[0].hubs.Keys), hdr, pdu, js, |js| - 1);
    assert c.path in Paths(j.inflight);
    next := Hop(wire, j, c, pdu, air);
    SomeDegree(wire);
    HopDecays(wire, j, c, pdu, air, |wire.Keys|);
    assert HopsBy(wire, pdu, j, next, c, air);
  }

  /** Either end of a connection that is up can send a PDU, and it comes to rest. */
  lemma LinkDelivers(wire: Wiring, hubs: map<HubId, HubState>, l: Conn2, initiator: bool, hdr: Hdr, pdu: seq<Byte>, air: Air)
    returns (js: seq<Journey>)
    requires NetOk(wire, hubs) && Carried(hubs, l) && OnLink(l.aa, hdr) && Reliable(air)
    ensures js != [] && LinkJourney(wire, l, initiator, hdr, pdu, js) && js[|js| - 1].inflight == {}
    ensures forall i :: 0 < i < |js| ==> Hops(wire, pdu, js[i - 1], js[i])
    ensures LinkStartBy(wire, l, initiator, hdr, pdu, js[0], hubs, hubs[End(l, initiator).0].nodes[End(l, initiator).1].peer, air)
  {
    hide Forward, DataMove, HubOk, HubSane, LinkAims, Hops, Exact;
    var x := End(l, initiator);
    var src := hubs[x.0].nodes[x.1].peer;
    SenderPlain(wire, hubs, x.0, x.1);
    var j := Launch(wire, hubs, x.0, src, hdr, pdu, air);
    assert LinkStartBy(wire, l, initiator, hdr, pdu, j, hubs, src, air);
    js := LinkCompletes(wire, l, initiator, hdr, pdu, [j], air);
  }

  lemma SenderPlain(wire: Wiring, hubs: map<HubId, HubState>, h: HubId, n: int)
    requires NetOk(wire, hubs) && Online(hubs, h, n)
    ensures var p := hubs[h].nodes[n].peer; Live(hubs[h], p) && hubs[h].peers[p].node == n && !hubs[h].peers[p].bridge
  {
    assert HubOk(wire, h, hubs[h]);
    SenderBound(wire, hubs, h, n);
  }
}
