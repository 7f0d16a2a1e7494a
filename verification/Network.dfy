/** Many hubs joined by bridge links. One frame at a time is followed from the node that
    sends it through every hub it reaches, while the rest of the network goes on with
    other business; the hubs act exactly as the single-hub model says. */
module Network {
  import opened Wire
  import opened HubModel
  import opened HubInvariants
  import opened HubRouting
  import opened HubTraffic
  import opened Flood

  /** A frame copy on its way over a bridge link. */
  datatype Copy = Copy(path: Walk, hdr: Hdr)

  /** One frame on its way: the hubs, the copies under way, the copies already taken in,
      and the local nodes that were sent the frame. */
  datatype Journey = Journey(hubs: map<HubId, HubState>, inflight: set<Copy>, done: set<Walk>,
                             got: multiset<(HubId, int)>)

  /** Every write succeeds and everybody is in range. */
  ghost predicate Reliable(air: Air) {
    forall i: nat :: air.hear(i).Some? && air.send(i).Sent? && air.tap(i).Sent?
  }

  const CLEAR := Air(_ => Some(-40), _ => Sent, _ => Sent)

  /** A hub in a reachable state whose live bridge sockets are ends of wired links. */
  ghost predicate HubSane(wire: Wiring, h: HubId, s: HubState) {
    && HubInvariants.Inv(s) && Exact(s)
    && forall i: nat :: Bridged(s, i) ==> Port(h, i) in wire
  }

  ghost predicate NetSane(wire: Wiring, hubs: map<HubId, HubState>) {
    && Wired(wire)
    && (forall p :: p in wire ==> p.hub in hubs)
    && (forall h :: h in hubs ==> HubSane(wire, h, hubs[h]))
  }

  /** A bridge socket is up at this slot. */
  predicate Bridged(s: HubState, slot: nat) {
    Live(s, slot) && s.peers[slot].bridge
  }

  /** Both ends of every wired link are up, too. */
  ghost predicate HubOk(wire: Wiring, h: HubId, s: HubState) {
    HubSane(wire, h, s) && forall i: nat :: Port(h, i) in wire ==> Bridged(s, i)
  }

  ghost predicate NetOk(wire: Wiring, hubs: map<HubId, HubState>) {
    && NetSane(wire, hubs)
    && (forall h :: h in hubs ==> HubOk(wire, h, hubs[h]))
  }

  /** An entry of a hub's trace that is a copy to a bridge. */
  predicate ToBridge(s: HubState, e: Entry) {
    e.Attempt? && e.dst < |s.peers| && s.peers[e.dst].bridge
  }

  /** The copies that one hub's trace puts on the bridge links. */
  ghost function Emitted(h: HubId, s: HubState, path: Walk, log: seq<Entry>): set<Copy> {
    set e | e in log && ToBridge(s, e) && e.outcome.Sent? :: Copy(path + [Port(h, e.dst)], e.hdr)
  }

  /** The local nodes that one hub's trace sends the frame to. */
  ghost function Receipts(h: HubId, log: seq<Entry>): multiset<(HubId, int)> {
    if log == [] then multiset{}
    else
      var e := log[|log| - 1];
      Receipts(h, log[..|log| - 1])
      + if e.Attempt? && e.outcome.Sent? && e.node >= 0 then multiset{(h, e.node)} else multiset{}
  }

  /** A local peer of hub o sends the frame. */
  ghost function Launch(wire: Wiring, hubs: map<HubId, HubState>, o: HubId, src: nat,
                        hdr: Hdr, pdu: seq<Byte>, air: Air): Journey
    requires NetSane(wire, hubs) && o in hubs && Live(hubs[o], src)
  {
    var r := Forward(hubs[o], src, hdr, pdu, air);
    Journey(hubs[o := r.s], Emitted(o, hubs[o], [], r.log), {}, Receipts(o, r.log))
  }

  /** Some copy under way arrives at its hub, unless the link has gone down meanwhile. */
  ghost function Hop(wire: Wiring, j: Journey, c: Copy, pdu: seq<Byte>, air: Air): Journey
    requires NetSane(wire, j.hubs) && c in j.inflight && Nonempty(wire, c.path)
  {
    var at := Arrival(wire, c.path);
    var s := j.hubs[at.hub];
    if !Bridged(s, at.slot) then j.(inflight := j.inflight - {c}, done := j.done + {c.path})
    else
      var r := Forward(s, at.slot, c.hdr, pdu, air);
      Journey(j.hubs[at.hub := r.s],
              j.inflight - {c} + Emitted(at.hub, s, c.path, r.log),
              j.done + {c.path},
              j.got + Receipts(at.hub, r.log))
  }

  /** Over reliable links, some copy under way has arrived. */
  ghost predicate Hops(wire: Wiring, pdu: seq<Byte>, j: Journey, k: Journey) {
    exists c: Copy, air: Air :: HopsBy(wire, pdu, j, k, c, air)
  }

  ghost predicate HopsBy(wire: Wiring, pdu: seq<Byte>, j: Journey, k: Journey, c: Copy, air: Air) {
    && c in j.inflight && Nonempty(wire, c.path) && Reliable(air) && NetOk(wire, j.hubs)
    && k == Hop(wire, j, c, pdu, air)
  }

  // ---------------------------------------------------- one hub's part of a flood

  /** What a hub makes of a frame from a bridge. */
  lemma ForwardBridge(s: HubState, slot: nat, hdr: Hdr, pdu: seq<Byte>, air: Air)
    requires InRange(s) && slot < |s.peers| && s.peers[slot].bridge
    ensures Forward(s, slot, hdr, pdu, air) ==
      if hdr.ttl == 0 then Run(s, []) else Handle(s, slot, s.peers[slot].node, hdr.(ttl := hdr.ttl - 1), pdu, air)
  {
    hide Handle;
    assert Restamp(true, hdr.ttl) == if hdr.ttl == 0 then None else Some(hdr.ttl - 1);
  }

  /** What a hub makes of a frame from a local socket. */
  lemma ForwardPlain(s: HubState, src: nat, hdr: Hdr, pdu: seq<Byte>, air: Air)
    requires InRange(s) && src < |s.peers| && !s.peers[src].bridge
    ensures Forward(s, src, hdr, pdu, air) == Handle(s, src, s.peers[src].node, hdr.(ttl := FRESH_TTL), pdu, air)
  {
    hide Handle;
    assert Restamp(false, hdr.ttl) == Some(FRESH_TTL);
  }

  /** With reliable links, taps change no peer. */
  lemma OverhearReliable(s: HubState, src: nat, a: int, hdr: Hdr, air: Air)
    requires InRange(s) && -1 <= a < |s.nodes| && Reliable(air)
    ensures Overhear(s, src, a, hdr, air).s.peers == s.peers
  {
    var learned := Learn(s, a, hdr.txAddr);
    forall d | 0 <= d < |s.peers| ensures Overhear(s, src, a, hdr, air).s.peers[d] == s.peers[d] {
      IterateCloses(Taps, learned, src, hdr, air, 0, d);
      assert air.tap(d).Sent?;
    }
  }

  lemma FanOutReliable(s: HubState, src: nat, hdr: Hdr, air: Air)
    requires InRange(s) && Reliable(air)
    ensures FanOut(s, src, hdr, air).s.peers == s.peers
    ensures FanOut(s, src, hdr, air).log == Verdicts(Fan, s, src, hdr, air, 0)
  {
    IterateIsVerdicts(Fan, s, src, hdr, air, 0);
    forall d | 0 <= d < |s.peers| ensures FanOut(s, src, hdr, air).s.peers[d] == s.peers[d] {
      IterateCloses(Fan, s, src, hdr, air, 0, d);
      assert air.send(d).Sent?;
    }
  }

  lemma HandleAdvLog(s: HubState, src: nat, a: int, hdr: Hdr, pdu: seq<Byte>, air: Air)
    requires InRange(s) && Exact(s) && -1 <= a < |s.nodes| && Reliable(air) && hdr.llType == LL_ADV
    ensures var t := Overhear(s, src, a, hdr, air).s;
      && Handle(s, src, a, hdr, pdu, air).log
         == Verdicts(Taps, s, src, hdr, air, 0) + (SnoopAny(t, a, pdu).log + Verdicts(Fan, s, src, hdr, air, 0))
      && Handle(s, src, a, hdr, pdu, air).s.peers == s.peers
  {
    var t := Overhear(s, src, a, hdr, air).s;
    OverhearLog(s, src, a, hdr, air);
    OverhearReliable(s, src, a, hdr, air);
    var u := SnoopAny(t, a, pdu).s;
    FanOutReliable(u, src, hdr, air);
    VerdictsFrame(Fan, s, u, src, hdr, air, 0);
  }

  /** Whatever fails: each other live bridge is offered exactly one copy of an advertising or
      data frame, restamped and otherwise as it came; a bridge is offered nothing else. */
  lemma HandleTrunks(s: HubState, src: nat, a: int, hdr: Hdr, pdu: seq<Byte>, air: Air, d: nat)
    requires HubInvariants.Inv(s) && Exact(s) && -1 <= a < |s.nodes| && d < |s.peers| && s.peers[d].bridge
    ensures About(Handle(s, src, a, hdr, pdu, air).log, d) ==
      if Floods(hdr) && IsTrunk(s, src, d) then [Attempt(d, -1, hdr, air.send(d))] else []
  {
    hide Overhear, Broadcast, RouteData, Routes;
    if hdr.llType == LL_ADV {
      HeardAbout(s, src, a, hdr, pdu, air, d);
    } else if hdr.llType == LL_DATA {
      DataOutcomes(s, src, a, hdr, pdu, air, d);
      assert forall n :: 0 <= n < |s.nodes| ==> s.nodes[n].peer != d;
    } else {
      OverhearAbout(s, src, a, hdr, air, d);
      assert Handle(s, src, a, hdr, pdu, air).log == Overhear(s, src, a, hdr, air).log;
    }
  }

  lemma {:induction false} AboutMember(log: seq<Entry>, d: nat, e: Entry)
    requires Concerns(e, d)
    ensures e in log <==> e in About(log, d)
  {
    if log != [] {
      AboutMember(log[1..], d, e);
      assert log == [log[0]] + log[1..];
    }
  }

  predicate Floods(hdr: Hdr) {
    hdr.llType == LL_ADV || hdr.llType == LL_DATA
  }

  /** One copy through each bridge port of hub h except slot src. */
  ghost function Out(wire: Wiring, h: HubId, src: nat, path: Walk, hdr: Hdr): set<Copy> {
    set p | p in wire && p.hub == h && p.slot != src :: Copy(path + [p], hdr)
  }

  /** Each hub passes a frame on through other bridge ports only, at most once each, and
      restamped; with reliable links through all of them. */
  lemma HandleEmits(wire: Wiring, h: HubId, s: HubState, src: nat, a: int, hdr: Hdr, pdu: seq<Byte>, air: Air,
                    path: Walk)
    requires HubSane(wire, h, s) && -1 <= a < |s.nodes|
    ensures var sent := Emitted(h, s, path, Handle(s, src, a, hdr, pdu, air).log);
      && sent <= Out(wire, h, src, path, hdr)
      && (HubOk(wire, h, s) && Reliable(air) && Floods(hdr) ==> sent == Out(wire, h, src, path, hdr))
  {
    hide Handle;
    var log := Handle(s, src, a, hdr, pdu, air).log;
    var sent := Emitted(h, s, path, log);
    forall c | c in sent ensures c in Out(wire, h, src, path, hdr) {
      var e :| e in log && ToBridge(s, e) && e.outcome.Sent? && c == Copy(path + [Port(h, e.dst)], e.hdr);
      HandleTrunks(s, src, a, hdr, pdu, air, e.dst);
      AboutMember(log, e.dst, e);
      assert Port(h, e.dst) in wire && Port(h, e.dst).slot != src;
    }
    if HubOk(wire, h, s) && Reliable(air) && Floods(hdr) {
      forall p | p in wire && p.hub == h && p.slot != src ensures Copy(path + [p], hdr) in sent {
        assert p == Port(h, p.slot);
        var e := Attempt(p.slot, -1, hdr, air.send(p.slot));
        HandleTrunks(s, src, a, hdr, pdu, air, e.dst);
        AboutMember(log, e.dst, e);
        assert air.send(p.slot).Sent?;
        assert e in log && Port(h, e.dst) == p;
      }
    }
  }

  // ------------------------------------------------ journeys are TTL-bounded floods

  /** The header a copy carries after leaving through |w| ports. */
  function Stamp(hdr: Hdr, w: Walk): Hdr {
    hdr.(ttl := if |w| <= MAX_LINKS then MAX_LINKS - |w| else 0)
  }

  ghost function Paths(inflight: set<Copy>): set<Walk> {
    set c | c in inflight :: c.path
  }

  /** The journey's copies are those of a flood, each with the TTL of its walk. */
  ghost predicate Tracking(wire: Wiring, o: HubId, hdr: Hdr, j: Journey) {
    && Flood.Inv(wire, o, Process(Paths(j.inflight), j.done))
    && forall c :: c in j.inflight ==> c.hdr == Stamp(hdr, c.path)
  }

  /** What a local frame starts with: one copy through each bridge port. */
  ghost function Started(wire: Wiring, o: HubId, hdr: Hdr): set<Copy> {
    set p | p in wire && p.hub == o :: Copy([p], hdr.(ttl := FRESH_TTL))
  }

  lemma OutIsStarted(wire: Wiring, o: HubId, src: nat, hdr: Hdr)
    requires Port(o, src) !in wire
    ensures Out(wire, o, src, [], hdr.(ttl := FRESH_TTL)) == Started(wire, o, hdr)
  {
    forall p | p in wire && p.hub == o ensures p.slot != src && [] + [p] == [p] {
      assert p == Port(o, p.slot);
    }
  }

  lemma LaunchEmits(wire: Wiring, hubs: map<HubId, HubState>, o: HubId, src: nat, hdr: Hdr, pdu: seq<Byte>, air: Air)
    requires NetOk(wire, hubs)
    requires o in hubs && Live(hubs[o], src) && !hubs[o].peers[src].bridge
    requires Reliable(air) && Floods(hdr)
    ensures Launch(wire, hubs, o, src, hdr, pdu, air).inflight == Started(wire, o, hdr)
  {
    hide Handle, Forward;
    assert HubOk(wire, o, hubs[o]);
    ForwardPlain(hubs[o], src, hdr, pdu, air);
    HandleEmits(wire, o, hubs[o], src, hubs[o].peers[src].node, hdr.(ttl := FRESH_TTL), pdu, air, []);
    OutIsStarted(wire, o, src, hdr);
  }

  lemma LaunchTracks(wire: Wiring, hubs: map<HubId, HubState>, o: HubId, src: nat, hdr: Hdr, pdu: seq<Byte>, air: Air)
    requires NetOk(wire, hubs)
    requires o in hubs && Live(hubs[o], src) && !hubs[o].peers[src].bridge
    requires Reliable(air) && Floods(hdr)
    ensures var j := Launch(wire, hubs, o, src, hdr, pdu, air);
      && Tracking(wire, o, hdr, j)
      && Process(Paths(j.inflight), j.done) == Begin(wire, o)
  {
    hide Forward;
    LaunchEmits(wire, hubs, o, src, hdr, pdu, air);
    StartPaths(wire, o, hdr);
  }

  lemma StartPaths(wire: Wiring, o: HubId, hdr: Hdr)
    ensures Process(Paths(Started(wire, o, hdr)), {}) == Begin(wire, o)
    ensures Flood.Inv(wire, o, Process(Paths(Started(wire, o, hdr)), {}))
    ensures forall c :: c in Started(wire, o, hdr) ==> c.hdr == Stamp(hdr, c.path)
  {
    forall p | p in wire && p.hub == o ensures [p] in Paths(Started(wire, o, hdr)) {
      assert Copy([p], hdr.(ttl := FRESH_TTL)) in Started(wire, o, hdr);
    }
    assert Paths(Started(wire, o, hdr)) == Begin(wire, o).inflight;
    BeginInv(wire, o);
  }

  lemma ArrivalPort(wire: Wiring, s: HubState, w: Walk)
    requires Wired(wire) && Nonempty(wire, w) && HubOk(wire, Arrival(wire, w).hub, s)
    ensures var at := Arrival(wire, w); at.slot < |s.peers| && s.peers[at.slot] == Peer(true, true, false, -1)
  {
    var at := Arrival(wire, w);
    assert at in wire && at == Port(at.hub, at.slot);
  }

  /** What a hub makes of an arriving copy: nothing once its TTL is used up. */
  lemma ArrivalForward(s: HubState, slot: nat, c: Copy, hdr: Hdr, pdu: seq<Byte>, air: Air)
    requires InRange(s) && slot < |s.peers| && s.peers[slot] == Peer(true, true, false, -1)
    requires c.hdr == Stamp(hdr, c.path) && |c.path| <= MAX_LINKS
    ensures Forward(s, slot, c.hdr, pdu, air) ==
      if |c.path| == MAX_LINKS then Run(s, [])
      else Handle(s, slot, -1, hdr.(ttl := MAX_HOPS - |c.path|), pdu, air)
  {
    hide Handle, Forward;
    ForwardBridge(s, slot, c.hdr, pdu, air);
    if |c.path| < MAX_LINKS {
      assert c.hdr.(ttl := c.hdr.ttl - 1) == hdr.(ttl := MAX_HOPS - |c.path|);
    }
  }

  /** The copies with which a hub answers one that has taken walk w. */
  ghost function Passed(wire: Wiring, w: Walk, hdr: Hdr): set<Copy>
    requires Nonempty(wire, w)
  {
    if |w| > MAX_HOPS then {}
    else set p | p in wire && Onward(wire, w, p) :: Copy(w + [p], hdr.(ttl := MAX_HOPS - |w|))
  }

  lemma ArrivalEmits(wire: Wiring, s: HubState, c: Copy, hdr: Hdr, pdu: seq<Byte>, air: Air)
    requires Nonempty(wire, c.path) && c.hdr == Stamp(hdr, c.path) && |c.path| <= MAX_LINKS
    requires Wired(wire) && HubOk(wire, Arrival(wire, c.path).hub, s) && Reliable(air) && Floods(hdr)
    ensures var at := Arrival(wire, c.path);
      && at.slot < |s.peers|
      && Bridged(s, at.slot)
      && Emitted(at.hub, s, c.path, Forward(s, at.slot, c.hdr, pdu, air).log) == Passed(wire, c.path, hdr)
  {
    hide Handle, Forward;
    var at := Arrival(wire, c.path);
    ArrivalPort(wire, s, c.path);
    ArrivalForward(s, at.slot, c, hdr, pdu, air);
    if |c.path| <= MAX_HOPS {
      HandleEmits(wire, at.hub, s, at.slot, -1, hdr.(ttl := MAX_HOPS - |c.path|), pdu, air, c.path);
      OutIsPassed(wire, c.path, hdr);
    }
  }

  lemma HopEmits(wire: Wiring, j: Journey, c: Copy, hdr: Hdr, pdu: seq<Byte>, air: Air)
    requires NetOk(wire, j.hubs) && c in j.inflight && Nonempty(wire, c.path)
    requires Reliable(air) && Floods(hdr) && c.hdr == Stamp(hdr, c.path) && |c.path| <= MAX_LINKS
    ensures Hop(wire, j, c, pdu, air).inflight == j.inflight - {c} + Passed(wire, c.path, hdr)
  {
    hide Forward;
    var at := Arrival(wire, c.path);
    ArrivalEmits(wire, j.hubs[at.hub], c, hdr, pdu, air);
  }

  lemma OutIsPassed(wire: Wiring, w: Walk, hdr: Hdr)
    requires Nonempty(wire, w) && |w| <= MAX_HOPS
    ensures var at := Arrival(wire, w);
      Out(wire, at.hub, at.slot, w, hdr.(ttl := MAX_HOPS - |w|)) == Passed(wire, w, hdr)
  {
    var at := Arrival(wire, w);
    forall p | p in wire ensures Onward(wire, w, p) <==> p.hub == at.hub && p.slot != at.slot {
      assert p == Port(p.hub, p.slot) && at == Port(at.hub, at.slot);
    }
  }

  /** Whatever copy arrives next, the journey goes on as the flood does. */
  lemma HopTracks(wire: Wiring, o: HubId, hdr: Hdr, j: Journey, c: Copy, pdu: seq<Byte>, air: Air)
    requires NetOk(wire, j.hubs)
    requires Tracking(wire, o, hdr, j) && c in j.inflight && Nonempty(wire, c.path)
    requires Reliable(air) && Floods(hdr)
    ensures var k := Hop(wire, j, c, pdu, air);
      && c.path in Paths(j.inflight)
      && Tracking(wire, o, hdr, k)
      && Process(Paths(k.inflight), k.done) == Take(wire, Process(Paths(j.inflight), j.done), c.path)
  {
    hide Forward;
    var k := Hop(wire, j, c, pdu, air);
    assert c.path in Paths(j.inflight);
    HopEmits(wire, j, c, hdr, pdu, air);
    assert k.done == j.done + {c.path};
    TakenTracks(wire, o, hdr, j.inflight, k.inflight, j.done, c);
  }

  /** The bookkeeping of a hop, on the sets alone. */
  lemma TakenTracks(wire: Wiring, o: HubId, hdr: Hdr, before: set<Copy>, after: set<Copy>, done: set<Walk>, c: Copy)
    requires Flood.Inv(wire, o, Process(Paths(before), done))
    requires forall x :: x in before ==> x.hdr == Stamp(hdr, x.path)
    requires c in before && c.path in Paths(before) && Nonempty(wire, c.path)
    requires after == before - {c} + Passed(wire, c.path, hdr)
    ensures Process(Paths(after), done + {c.path}) == Take(wire, Process(Paths(before), done), c.path)
    ensures Flood.Inv(wire, o, Process(Paths(after), done + {c.path}))
    ensures forall x :: x in after ==> x.hdr == Stamp(hdr, x.path)
  {
    RestOfPaths(before, hdr, c);
    PassedPaths(wire, c.path, hdr);
    PathsUnion(before - {c}, Passed(wire, c.path, hdr));
    TakeInv(wire, o, Process(Paths(before), done), c.path);
    assert forall x :: x in Passed(wire, c.path, hdr) ==> |x.path| == |c.path| + 1;
  }

  lemma PathsUnion(a: set<Copy>, b: set<Copy>)
    ensures Paths(a + b) == Paths(a) + Paths(b)
  {
    forall w | w in Paths(a) + Paths(b) ensures w in Paths(a + b) {
      if w in Paths(a) {
        var c :| c in a && c.path == w;
        assert c in a + b;
      } else {
        var c :| c in b && c.path == w;
        assert c in a + b;
      }
    }
  }

  lemma RestOfPaths(inflight: set<Copy>, hdr: Hdr, c: Copy)
    requires c in inflight && forall x :: x in inflight ==> x.hdr == Stamp(hdr, x.path)
    ensures Paths(inflight - {c}) == Paths(inflight) - {c.path}
  {
    forall x | x in inflight && x != c ensures x.path != c.path {
    }
  }

  lemma PassedPaths(wire: Wiring, w: Walk, hdr: Hdr)
    requires Nonempty(wire, w)
    ensures Paths(Passed(wire, w, hdr)) == if |w| <= MAX_HOPS then Children(wire, w) else {}
  {
    if |w| <= MAX_HOPS {
      forall x | x in Children(wire, w) ensures x in Paths(Passed(wire, w, hdr)) {
        var p :| p in wire && Onward(wire, w, p) && x == w + [p];
        assert Copy(w + [p], hdr.(ttl := MAX_HOPS - |w|)) in Passed(wire, w, hdr);
      }
    }
  }
}
