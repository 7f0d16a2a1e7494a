/** Connections do not disturb each other: whatever else happens at a hub, frames of other
    connections, other nodes joining and leaving, writes failing, a connection stays up
    unless a CONNECT_IND names its Access Address or one of its own ends is lost. */
module Isolation {
  import opened Wire
  import opened HubModel
  import opened HubInvariants
  import opened HubRouting
  import opened HubTraffic
  import opened Flood
  import opened Network
  import opened Link

  /** No entry of the trace tells that node n's peer went away. */
  predicate NoDrop(log: seq<Entry>, n: int) {
    forall i :: 0 <= i < |log| ==> !Departs(log[i], n)
  }

  predicate NoConnect(log: seq<Entry>, aa: nat) {
    forall i :: 0 <= i < |log| ==> !(log[i].Observed? && log[i].aa == aa)
  }

  // --------------------------------------------------------------------- routes

  /** A trace that neither connects on an Access Address nor drops an end of its route
      leaves its route as it was. */
  lemma {:induction false} ReplaySpares(m: map<nat, (int, int)>, log: seq<Entry>, aa: nat)
    requires NoConnect(log, aa)
    requires aa in m ==> NoDrop(log, m[aa].0) && NoDrop(log, m[aa].1)
    ensures aa in Replay(m, log) <==> aa in m
    ensures aa in m ==> Replay(m, log)[aa] == m[aa]
  {
    if log != [] {
      var k := |log| - 1;
      ReplaySpares(m, log[..k], aa);
      ApplySpares(Replay(m, log[..k]), log[k], aa);
    }
  }

  lemma ApplySpares(m: map<nat, (int, int)>, e: Entry, aa: nat)
    requires !(e.Observed? && e.aa == aa)
    requires aa in m ==> !Departs(e, m[aa].0) && !Departs(e, m[aa].1)
    ensures aa in Apply(m, e) <==> aa in m
    ensures aa in m ==> Apply(m, e)[aa] == m[aa]
  {
  }

  /** Whatever one event does at a hub, a route changes only if its trace says so. */
  lemma RouteIsolated(s: HubState, e: Event, aa: nat)
    requires HubInvariants.Inv(s) && NoConnect(Step(s, e).log, aa)
    requires aa in Routes(s.conns) ==>
      NoDrop(Step(s, e).log, Routes(s.conns)[aa].0) && NoDrop(Step(s, e).log, Routes(s.conns)[aa].1)
    ensures var after := Routes(Step(s, e).s.conns);
      (aa in after <==> aa in Routes(s.conns)) && (aa in after ==> after[aa] == Routes(s.conns)[aa])
  {
    StepTracks(s, e);
    ReplaySpares(Routes(s.conns), Step(s, e).log, aa);
  }

  /** A route that names no local node, as one that a hub between two others holds, stays for
      the rest of every run that has no further CONNECT_IND for its address: no departure
      ends it, so its entry in the table is never free again. */
  lemma {:induction false} TransitRouteStays(events: seq<Event>, m: nat, aa: nat)
    requires m <= |events| && aa in Routes(After(events[..m]).s.conns)
    requires Routes(After(events[..m]).s.conns)[aa] == (-1, -1)
    requires forall k :: m <= k < |events| ==> NoConnect(Step(After(events[..k]).s, events[k]).log, aa)
    ensures aa in Routes(After(events).s.conns) && Routes(After(events).s.conns)[aa] == (-1, -1)
  {
    hide Step, NoConnect, Routes, HubInvariants.Inv;
    if m == |events| {
      assert events[..m] == events;
    } else {
      var n := |events| - 1;
      var front := events[..n];
      assert front[..m] == events[..m];
      forall k | m <= k < n ensures NoConnect(Step(After(front[..k]).s, front[k]).log, aa) {
        assert front[..k] == events[..k] && front[k] == events[k];
      }
      TransitRouteStays(front, m, aa);
      ReachableInv(front);
      assert events[..n] == front && After(events).s == Step(After(front).s, events[n]).s;
      RouteIsolated(After(front).s, events[n], aa);
    }
  }

  // ---------------------------------------------------------------------- nodes

  /** Node n is online after the run if it was before and the trace does not drop it. */
  predicate Stays(s: HubState, r: Run, n: nat) {
    n < |s.nodes| && s.nodes[n].peer >= 0 && NoDrop(r.log, n) ==> n < |r.s.nodes| && r.s.nodes[n].peer >= 0
  }

  lemma StaysThen(s: HubState, r1: Run, r2: Run, n: nat)
    requires Stays(s, r1, n) && Stays(r1.s, r2, n)
    ensures Stays(s, Run(r2.s, r1.log + r2.log), n)
  {
    var log := r1.log + r2.log;
    if NoDrop(log, n) {
      assert NoDrop(r1.log, n) by {
        forall i | 0 <= i < |r1.log| ensures !Departs(r1.log[i], n) { assert log[i] == r1.log[i]; }
      }
      assert NoDrop(r2.log, n) by {
        forall i | 0 <= i < |r2.log| ensures !Departs(r2.log[i], n) { assert log[|r1.log| + i] == r2.log[i]; }
      }
    }
  }

  lemma DeliverStays(s: HubState, tap: bool, dst: nat, hdr: Hdr, outcome: Outcome, n: nat)
    requires InRange(s) && dst < |s.peers|
    ensures Stays(s, Deliver(s, tap, dst, hdr, outcome), n)
  {
    var r := Deliver(s, tap, dst, hdr, outcome);
    if s.peers[dst].open && NoDrop(r.log, n) {
      assert !Departs(r.log[0], n);
    }
  }

  lemma LoopStepStays(loop: Loop, s: HubState, src: nat, hdr: Hdr, air: Air, i: nat, n: nat)
    requires InRange(s) && i < |s.peers|
    ensures Stays(s, LoopStep(loop, s, src, hdr, air, i), n)
  {
    DeliverStays(s, true, i, hdr, air.tap(i), n);
    DeliverStays(s, false, i, hdr, air.send(i), n);
    if air.hear(i).Some? {
      DeliverStays(s, false, i, hdr.(rssi := air.hear(i).value), air.send(i), n);
    }
  }

  lemma IterateStays(loop: Loop, s: HubState, src: nat, hdr: Hdr, air: Air, n: nat)
    requires InRange(s)
    ensures Stays(s, Iterate(loop, s, src, hdr, air, 0), n)
  {
    var p := (k: nat, r: Run) => Stays(s, r, n);
    forall r: Run, k: nat | InRange(r.s) && k < |r.s.peers| && p(k, r)
      ensures p(k + 1, Then(r, LoopStep(loop, r.s, src, hdr, air, k)))
    {
      LoopStepStays(loop, r.s, src, hdr, air, k, n);
      StaysThen(s, r, LoopStep(loop, r.s, src, hdr, air, k), n);
    }
    IterateThreads(p, loop, s, [], src, hdr, air, 0);
    var all := Iterate(loop, s, src, hdr, air, 0);
    assert Then(Run(s, []), all) == all;
  }

  lemma BroadcastStays(s: HubState, src: nat, a: int, hdr: Hdr, pdu: seq<Byte>, air: Air, n: nat)
    requires InRange(s) && -1 <= a < |s.nodes|
    ensures Stays(s, Broadcast(s, src, a, hdr, pdu, air), n)
  {
    var snooped := SnoopAny(s, a, pdu);
    IterateStays(Fan, snooped.s, src, hdr, air, n);
    StaysThen(s, snooped, FanOut(snooped.s, src, hdr, air), n);
  }

  lemma ToEndpointStays(s: HubState, other: int, hdr: Hdr, air: Air, n: nat)
    requires InRange(s) && -1 <= other < |s.nodes|
    ensures Stays(s, ToEndpoint(s, other, hdr, air), n)
  {
    if other >= 0 && s.nodes[other].peer >= 0 {
      var dst := s.nodes[other].peer;
      if air.hear(dst).Some? {
        DeliverStays(s, false, dst, hdr.(rssi := air.hear(dst).value), air.send(dst), n);
      }
    }
  }

  lemma RouteDataStays(s: HubState, src: nat, a: int, hdr: Hdr, air: Air, n: nat)
    requires InRange(s)
    ensures Stays(s, RouteData(s, src, a, hdr, air), n)
  {
    var c := FindConn(s.conns, hdr.aa);
    if c < 0 {
      IterateStays(Trunks, s, src, hdr, air, n);
    } else {
      RouteOnStays(s, c, src, a, hdr, air, n);
    }
  }

  lemma RouteOnStays(s: HubState, c: nat, src: nat, a: int, hdr: Hdr, air: Air, n: nat)
    requires InRange(s) && c < |s.conns|
    ensures Stays(s, RouteOn(s, c, src, a, hdr, air), n)
  {
    var t := CountPdu(s, c);
    var near := ToEndpoint(t, Opposite(s.conns[c], a), hdr, air);
    ToEndpointStays(t, Opposite(s.conns[c], a), hdr, air, n);
    IterateStays(Trunks, near.s, src, hdr, air, n);
    StaysThen(t, near, Mirror(near.s, src, hdr, air), n);
  }

  lemma HandleStays(s: HubState, src: nat, a: int, hdr: Hdr, pdu: seq<Byte>, air: Air, n: nat)
    requires HubInvariants.Inv(s) && -1 <= a < |s.nodes| && n < |s.nodes|
    ensures Stays(s, Handle(s, src, a, hdr, pdu, air), n)
  {
    var learned := Learn(s, a, hdr.txAddr);
    var tapped := Overhear(s, src, a, hdr, air);
    LearnPeers(s, a, hdr.txAddr);
    IterateStays(Taps, learned, src, hdr, air, n);
    assert Stays(s, tapped, n);
    if hdr.llType == LL_ADV {
      BroadcastStays(tapped.s, src, a, hdr, pdu, air, n);
    } else if hdr.llType == LL_DATA {
      RouteDataStays(tapped.s, src, a, hdr, air, n);
    }
    StaysThen(s, tapped, Dispatch(tapped.s, src, a, hdr, pdu, air), n);
  }

  /** Whatever one event does at a hub, a node goes offline only if the trace says so. */
  lemma NodeStays(s: HubState, e: Event, n: nat)
    requires HubInvariants.Inv(s) && n < |s.nodes|
    ensures Stays(s, Step(s, e), n)
  {
    match e
    case Joined(bridge) =>
    case Greeted(p, nid, monitor) =>
    case Heard(p, hdr, pdu, air) =>
      if Live(s, p) {
        var ttl := Restamp(s.peers[p].bridge, hdr.ttl);
        if ttl.Some? {
          HandleStays(s, p, s.peers[p].node, hdr.(ttl := ttl.value), pdu, air, n);
        }
      }
    case Left(p) =>
      if Live(s, p) && NoDrop(Step(s, e).log, n) {
        assert !Departs(Step(s, e).log[0], n);
      }
    case Declared(nid) =>
  }

  // ---------------------------------------------------------------- connections

  /** The trace at hub h does not concern the connection. */
  predicate Bystands(l: Conn2, h: HubId, log: seq<Entry>) {
    && NoConnect(log, l.aa)
    && (h == l.ha ==> NoDrop(log, l.na))
    && (h == l.hb ==> NoDrop(log, l.nb))
  }

  lemma CarriedElsewhere(hubs: map<HubId, HubState>, l: Conn2, h: HubId, s: HubState)
    requires Carried(hubs, l) && h in hubs
    requires h == l.ha ==> l.na < |s.nodes| && s.nodes[l.na].peer >= 0
    requires h == l.hb ==> l.nb < |s.nodes| && s.nodes[l.nb].peer >= 0
    requires var was := Routes(hubs[h].conns); var now := Routes(s.conns);
      (l.aa in now <==> l.aa in was) && (l.aa in now ==> now[l.aa] == was[l.aa])
    ensures Carried(hubs[h := s], l)
  {
    var after := hubs[h := s];
    assert Online(after, l.ha, l.na) && Online(after, l.hb, l.nb);
    forall k | k in after && l.aa in Routes(after[k].conns) ensures Routes(after[k].conns)[l.aa] == Expected(l, k) {
      assert k in hubs;
    }
  }

  /** Any event at any hub of the network, be it a frame of another connection with
      whatever failures, a node joining or one leaving, keeps a connection up, unless the
      trace shows a CONNECT_IND on its Access Address or the loss of one of its ends. */
  lemma ConnectionsIsolated(wire: Wiring, hubs: map<HubId, HubState>, l: Conn2, h: HubId, e: Event)
    requires NetOk(wire, hubs) && Carried(hubs, l) && h in hubs
    requires InRange(hubs[h]) && Bystands(l, h, Step(hubs[h], e).log)
    ensures Carried(hubs[h := Step(hubs[h], e).s], l)
  {
    var s := hubs[h];
    assert HubOk(wire, h, s);
    if h == l.ha { NodeStays(s, e, l.na); }
    if h == l.hb { NodeStays(s, e, l.nb); }
    RouteSpared(s, e, l, h);
    CarriedElsewhere(hubs, l, h, Step(s, e).s);
  }

  lemma RouteSpared(s: HubState, e: Event, l: Conn2, h: HubId)
    requires HubInvariants.Inv(s) && Bystands(l, h, Step(s, e).log)
    requires l.aa in Routes(s.conns) ==> Routes(s.conns)[l.aa] == Expected(l, h)
    ensures var was := Routes(s.conns); var now := Routes(Step(s, e).s.conns);
      (l.aa in now <==> l.aa in was) && (l.aa in now ==> now[l.aa] == was[l.aa])
  {
    RouteIsolated(s, e, l.aa);
  }

  /** So such an event is one that the journey of a data PDU of the connection allows for. */
  lemma EventIsDataMove(wire: Wiring, l: Conn2, pdu: seq<Byte>, j: Journey, h: HubId, e: Event)
    requires NetOk(wire, j.hubs) && Carried(j.hubs, l) && h in j.hubs
    requires InRange(j.hubs[h]) && Bystands(l, h, Step(j.hubs[h], e).log)
    requires HubOk(wire, h, Step(j.hubs[h], e).s)
    ensures DataMove(wire, l.aa, LinkAims(l, j.hubs.Keys), pdu, j, j.(hubs := j.hubs[h := Step(j.hubs[h], e).s]))
  {
    hide Step, Carried, Aimed, NetOk, Hops;
    var after := j.hubs[h := Step(j.hubs[h], e).s];
    ConnectionsIsolated(wire, j.hubs, l, h, e);
    NetOkAfter(wire, j.hubs, h, Step(j.hubs[h], e).s);
    CarriedAims(after, l, true);
    assert after.Keys == j.hubs.Keys;
  }
}
