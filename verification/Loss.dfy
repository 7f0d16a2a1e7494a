/** Data PDUs while anything may fail: writes that fail, are put off or close their peer,
    frames that the propagation model silences, bridges that go down. What gets through is
    at most what would get through if nothing failed. */
module Loss {
  import opened Wire
  import opened HubModel
  import opened HubInvariants
  import opened HubRouting
  import opened HubTraffic
  import opened Flood
  import opened Network
  import opened Decay
  import opened Link

  // ------------------------------------------------------------ aims only get lost

  /** Each hub sends a data PDU that comes over a bridge where it should, or nowhere. */
  ghost predicate AtMostAimed(hubs: map<HubId, HubState>, aa: nat, aims: map<HubId, int>) {
    hubs.Keys == aims.Keys && forall h :: h in hubs ==> Due(hubs[h], aa, -1) == aims[h] || Due(hubs[h], aa, -1) == -1
  }

  lemma {:induction false} ReplayShrinks(m: map<nat, (int, int)>, log: seq<Entry>, aa: nat)
    requires forall i :: 0 <= i < |log| ==> !log[i].Observed?
    ensures aa in Replay(m, log) ==> aa in m && Replay(m, log)[aa] == m[aa]
  {
    if log != [] {
      ReplayShrinks(m, log[..|log| - 1], aa);
    }
  }

  lemma DataObservesNothing(s: HubState, src: nat, a: int, hdr: Hdr, pdu: seq<Byte>, air: Air)
    requires HubInvariants.Inv(s) && Exact(s) && -1 <= a < |s.nodes| && hdr.llType == LL_DATA
    ensures var log := Handle(s, src, a, hdr, pdu, air).log; forall i :: 0 <= i < |log| ==> !log[i].Observed?
  {
    hide Handle, Verdicts;
    var log := Handle(s, src, a, hdr, pdu, air).log;
    DataLog(s, src, a, hdr, pdu, air);
    forall i | 0 <= i < |log| ensures !log[i].Observed? {
      VerdictsMember(Taps, s, src, hdr, air, 0, log[i]);
      VerdictsMember(Trunks, s, src, hdr, air, 0, log[i]);
      assert log[i] in log;
    }
  }

  /** A data frame, whatever it meets with, makes a hub send PDUs where it did or nowhere. */
  lemma FrameLosesAims(s: HubState, src: nat, hdr: Hdr, pdu: seq<Byte>, air: Air, aa: nat)
    requires HubInvariants.Inv(s) && Exact(s) && Live(s, src) && hdr.llType == LL_DATA
    ensures var t := Forward(s, src, hdr, pdu, air).s; Due(t, aa, -1) == Due(s, aa, -1) || Due(t, aa, -1) == -1
  {
    hide Forward, Handle, Routes;
    var t := Forward(s, src, hdr, pdu, air).s;
    ForwardKeeps(s, src, hdr, pdu, air);
    ForwardExact(s, src, hdr, pdu, air);
    ForwardCloses(s, src, hdr, pdu, air);
    ForwardTracks(s, src, hdr, pdu, air);
    ForwardObservesNothing(s, src, hdr, pdu, air);
    ReplayShrinks(Routes(s.conns), Forward(s, src, hdr, pdu, air).log, aa);
    DueShrinks(s, t, aa);
  }

  lemma ForwardObservesNothing(s: HubState, src: nat, hdr: Hdr, pdu: seq<Byte>, air: Air)
    requires HubInvariants.Inv(s) && Exact(s) && Live(s, src) && hdr.llType == LL_DATA
    ensures var log := Forward(s, src, hdr, pdu, air).log; forall i :: 0 <= i < |log| ==> !log[i].Observed?
  {
    hide Forward, Handle;
    var a := s.peers[src].node;
    if s.peers[src].bridge {
      ForwardBridge(s, src, hdr, pdu, air);
      if hdr.ttl > 0 {
        DataObservesNothing(s, src, a, hdr.(ttl := hdr.ttl - 1), pdu, air);
      }
    } else {
      ForwardPlain(s, src, hdr, pdu, air);
      DataObservesNothing(s, src, a, hdr.(ttl := FRESH_TTL), pdu, air);
    }
  }

  lemma DueShrinks(s: HubState, t: HubState, aa: nat)
    requires HubInvariants.Inv(s) && HubInvariants.Inv(t) && Exact(t) && OnlyCloses(s, t) && |s.nodes| == |t.nodes|
    requires aa in Routes(t.conns) ==> aa in Routes(s.conns) && Routes(t.conns)[aa] == Routes(s.conns)[aa]
    ensures Due(t, aa, -1) == Due(s, aa, -1) || Due(t, aa, -1) == -1
  {
    hide Routes;
    var n := Due(t, aa, -1);
    if n >= 0 {
      var p := t.nodes[n].peer;
      assert t.peers[p].node == n && s.peers[p].node == n;
    }
  }

  /** So what a hop leaves behind is again a network that sends PDUs where it should or
      nowhere. */
  lemma HopLosesAims(wire: Wiring, j: Journey, c: Copy, pdu: seq<Byte>, air: Air, aa: nat, aims: map<HubId, int>)
    requires NetSane(wire, j.hubs) && c in j.inflight && Nonempty(wire, c.path)
    requires AtMostAimed(j.hubs, aa, aims) && c.hdr.llType == LL_DATA
    ensures AtMostAimed(Hop(wire, j, c, pdu, air).hubs, aa, aims)
  {
    hide Forward, Due, AtMostAimed, Emitted, Receipts;
    var at := Arrival(wire, c.path);
    var s := j.hubs[at.hub];
    assert HubSane(wire, at.hub, s);
    if Bridged(s, at.slot) {
      FrameLosesAims(s, at.slot, c.hdr, pdu, air, aa);
      AtMostAfter(j.hubs, aa, aims, at.hub, Forward(s, at.slot, c.hdr, pdu, air).s);
    }
  }

  lemma AtMostAfter(hubs: map<HubId, HubState>, aa: nat, aims: map<HubId, int>, h: HubId, t: HubState)
    requires AtMostAimed(hubs, aa, aims) && h in hubs
    requires Due(t, aa, -1) == Due(hubs[h], aa, -1) || Due(t, aa, -1) == -1
    ensures AtMostAimed(hubs[h := t], aa, aims)
  {
    hide Due;
    assert hubs[h := t].Keys == hubs.Keys;
  }

  // ------------------------------------------------------------------- receipts

  /** What a hub hands to its nodes when a copy arrives, whatever fails. */
  lemma ArrivalAtMost(wire: Wiring, s: HubState, at: Port, c: Copy, pdu: seq<Byte>, air: Air)
    requires HubSane(wire, at.hub, s) && Bridged(s, at.slot) && InRange(s) && c.hdr.llType == LL_DATA
    ensures Receipts(at.hub, Forward(s, at.slot, c.hdr, pdu, air).log)
         <= if c.hdr.ttl > 0 then One(at.hub, Due(s, c.hdr.aa, -1)) else multiset{}
  {
    hide Forward, Handle, Due;
    ForwardBridge(s, at.slot, c.hdr, pdu, air);
    if c.hdr.ttl > 0 {
      assert s.peers[at.slot].node == -1;
      DataReceipts(at.hub, s, at.slot, -1, c.hdr.(ttl := c.hdr.ttl - 1), pdu, air);
    }
  }

  ghost predicate AtMostCounted(wire: Wiring, o: HubId, local: int, aims: map<HubId, int>, done: set<Walk>,
                                got: multiset<(HubId, int)>) {
    forall h: HubId, n: int :: got[(h, n)] <= Count(wire, o, local, aims, done, h, n)
  }

  ghost predicate LossInv(wire: Wiring, o: HubId, local: int, aa: nat, aims: map<HubId, int>, j: Journey) {
    && Aging(wire, o, j) && (forall c :: c in j.inflight ==> OnLink(aa, c.hdr))
    && AtMostCounted(wire, o, local, aims, j.done, j.got)
  }

  /** One more walk taken in, and at most the delivery it stands for. */
  lemma AtMostGrows(wire: Wiring, o: HubId, local: int, aims: map<HubId, int>, done: set<Walk>, w: Walk,
                    got: multiset<(HubId, int)>, more: multiset<(HubId, int)>)
    requires AtMostCounted(wire, o, local, aims, done, got) && Nonempty(wire, w) && w !in done
    requires var h := Arrival(wire, w).hub;
      more <= if |w| <= MAX_HOPS && h in aims then One(h, aims[h]) else multiset{}
    ensures AtMostCounted(wire, o, local, aims, done + {w}, got + more)
  {
    hide Count;
    forall h: HubId, n: int ensures (got + more)[(h, n)] <= Count(wire, o, local, aims, done + {w}, h, n) {
      CountKept(wire, o, local, aims, done, w, h, n);
      assert more[(h, n)] <= if Delivers(wire, aims, w, h, n) then 1 else 0;
    }
  }

  lemma HopLoss(wire: Wiring, o: HubId, local: int, aa: nat, aims: map<HubId, int>, pdu: seq<Byte>, j: Journey, c: Copy, air: Air)
    requires NetSane(wire, j.hubs) && c in j.inflight && Nonempty(wire, c.path)
    requires AtMostAimed(j.hubs, aa, aims) && LossInv(wire, o, local, aa, aims, j)
    ensures LossInv(wire, o, local, aa, aims, Hop(wire, j, c, pdu, air))
  {
    hide Hop, Part, AtMostCounted, NetSane, AtMostAimed;
    HopAges(wire, o, j, c, pdu, air);
    HopAnswers(wire, j, c, pdu, air);
    HopGets(wire, aa, aims, pdu, j, c, air);
    var k := Hop(wire, j, c, pdu, air);
    forall e | e in k.inflight ensures OnLink(aa, e.hdr) {
      if e in Answers(wire, c) {
        assert e.hdr == c.hdr.(ttl := c.hdr.ttl - 1);
      }
    }
    AtMostGrows(wire, o, local, aims, j.done, c.path, j.got, k.got - j.got);
    assert j.got + (k.got - j.got) == k.got;
  }

  lemma HopGets(wire: Wiring, aa: nat, aims: map<HubId, int>, pdu: seq<Byte>, j: Journey, c: Copy, air: Air)
    requires NetSane(wire, j.hubs) && c in j.inflight && Nonempty(wire, c.path)
    requires AtMostAimed(j.hubs, aa, aims) && OnLink(aa, c.hdr) && c.hdr.ttl + |c.path| == MAX_LINKS
    ensures var k := Hop(wire, j, c, pdu, air); var h := Arrival(wire, c.path).hub;
      && j.got <= k.got
      && k.got - j.got <= if |c.path| <= MAX_HOPS && h in aims then One(h, aims[h]) else multiset{}
  {
    hide Forward, Due;
    var at := Arrival(wire, c.path);
    var s := j.hubs[at.hub];
    assert HubSane(wire, at.hub, s);
    if Bridged(s, at.slot) {
      ArrivalAtMost(wire, s, at, c, pdu, air);
    }
  }

  // ------------------------------------------------------------------------ runs

  /** A data PDU that a local socket of hub o has just sent, with whatever outcome. */
  ghost predicate LossStart(wire: Wiring, o: HubId, local: int, aa: nat, pdu: seq<Byte>, j: Journey) {
    exists hubs: map<HubId, HubState>, src: nat, hdr: Hdr, air: Air ::
      LossStartBy(wire, o, local, aa, pdu, j, hubs, src, hdr, air)
  }

  ghost predicate LossStartBy(wire: Wiring, o: HubId, local: int, aa: nat, pdu: seq<Byte>, j: Journey,
                              hubs: map<HubId, HubState>, src: nat, hdr: Hdr, air: Air) {
    && StartsAt(wire, o, pdu, j, hubs, src, hdr, air) && OnLink(aa, hdr)
    && local == Due(hubs[o], aa, hubs[o].peers[src].node)
  }

  /** Next: the hubs change in any way that sends the PDU where it should go or nowhere, and
      then some copy under way arrives or is lost, with whatever outcome. */
  ghost predicate LossMove(wire: Wiring, aa: nat, aims: map<HubId, int>, pdu: seq<Byte>, j: Journey, k: Journey) {
    exists hubs: map<HubId, HubState>, c: Copy, air: Air ::
      MovesBy(wire, pdu, j, k, hubs, c, air) && AtMostAimed(hubs, aa, aims)
  }

  ghost predicate LossJourney(wire: Wiring, o: HubId, local: int, aa: nat, aims: map<HubId, int>, pdu: seq<Byte>,
                              js: seq<Journey>) {
    && js != [] && LossStart(wire, o, local, aa, pdu, js[0])
    && forall i :: 0 < i < |js| ==> LossMove(wire, aa, aims, pdu, js[i - 1], js[i])
  }

  lemma LossStartInv(wire: Wiring, o: HubId, local: int, aa: nat, aims: map<HubId, int>, pdu: seq<Byte>, j: Journey)
    requires LossStart(wire, o, local, aa, pdu, j)
    ensures LossInv(wire, o, local, aa, aims, j)
  {
    hide Launch, Due, NetSane;
    var hubs: map<HubId, HubState>, src: nat, hdr: Hdr, air: Air :|
      LossStartBy(wire, o, local, aa, pdu, j, hubs, src, hdr, air);
    LaunchOut(wire, hubs, o, src, hdr, pdu, air);
    FirstAges(wire, o, src, hdr.(ttl := FRESH_TTL), j);
    LaunchGets(wire, hubs, o, src, hdr, pdu, air);
    NothingYet(wire, o, local, aims);
  }

  lemma LaunchGets(wire: Wiring, hubs: map<HubId, HubState>, o: HubId, src: nat, hdr: Hdr, pdu: seq<Byte>, air: Air)
    requires NetSane(wire, hubs) && o in hubs && Live(hubs[o], src) && !hubs[o].peers[src].bridge && hdr.llType == LL_DATA
    ensures Launch(wire, hubs, o, src, hdr, pdu, air).got <= One(o, Due(hubs[o], hdr.aa, hubs[o].peers[src].node))
  {
    hide Forward, Due;
    assert HubSane(wire, o, hubs[o]);
    SentReceipts(o, hubs[o], src, hdr, pdu, air);
  }

  lemma LossMoveKeeps(wire: Wiring, o: HubId, local: int, aa: nat, aims: map<HubId, int>, pdu: seq<Byte>, j: Journey, k: Journey)
    requires LossMove(wire, aa, aims, pdu, j, k) && LossInv(wire, o, local, aa, aims, j)
    ensures LossInv(wire, o, local, aa, aims, k)
  {
    hide Hop, NetSane, AtMostAimed, AtMostCounted, Part;
    var hubs: map<HubId, HubState>, c: Copy, air: Air :|
      MovesBy(wire, pdu, j, k, hubs, c, air) && AtMostAimed(hubs, aa, aims);
    HopLoss(wire, o, local, aa, aims, pdu, j.(hubs := hubs), c, air);
  }

  lemma {:induction false} LossJourneyInv(wire: Wiring, o: HubId, local: int, aa: nat, aims: map<HubId, int>, pdu: seq<Byte>,
                                          js: seq<Journey>, i: nat)
    requires LossJourney(wire, o, local, aa, aims, pdu, js) && i < |js|
    ensures LossInv(wire, o, local, aa, aims, js[i])
  {
    hide LossMove, LossStart, LossInv;
    if i == 0 {
      LossStartInv(wire, o, local, aa, aims, pdu, js[0]);
    } else {
      LossJourneyInv(wire, o, local, aa, aims, pdu, js, i - 1);
      LossMoveKeeps(wire, o, local, aa, aims, pdu, js[i - 1], js[i]);
    }
  }

  /** Whatever fails, in any network and over every interleaving: no node gets a data PDU
      more often than it would if nothing failed. */
  lemma NeverMore(wire: Wiring, o: HubId, local: int, aa: nat, aims: map<HubId, int>, pdu: seq<Byte>, js: seq<Journey>, i: nat,
                  h: HubId, n: int)
    requires LossJourney(wire, o, local, aa, aims, pdu, js) && i < |js|
    ensures js[i].got[(h, n)] <= Copies(wire, o, local, aims, h, n)
  {
    hide LossJourney;
    LossJourneyInv(wire, o, local, aa, aims, pdu, js, i);
    DeliveringAtMost(wire, o, aims, Process(Paths(js[i].inflight), js[i].done), h, n);
  }

  /** A data PDU of a connection on its way, whatever fails. */
  ghost predicate LinkLoss(wire: Wiring, l: Conn2, initiator: bool, ids: set<HubId>, pdu: seq<Byte>, js: seq<Journey>) {
    LossJourney(wire, End(l, initiator).0, LocalOf(l, initiator), l.aa, LinkAims(l, ids), pdu, js)
  }

  /** Whatever fails: a data PDU that one end of a connection sends reaches nobody but the
      other end, and that one at most once, if at most one walk of at most eight links leads
      to the other end's hub and none leads back. */
  lemma AtMostOnce(wire: Wiring, l: Conn2, initiator: bool, ids: set<HubId>, pdu: seq<Byte>, js: seq<Journey>, i: nat)
    requires AtMostOneWay(wire, End(l, initiator).0, End(l, !initiator).0)
    requires l.ha in ids && l.hb in ids && (l.ha == l.hb ==> l.na != l.nb) && l.na >= 0 && l.nb >= 0
    requires LinkLoss(wire, l, initiator, ids, pdu, js) && i < |js|
    ensures js[i].got <= multiset{End(l, !initiator)}
  {
    hide LossJourney, WalksTo, Within, AtMostOneWay;
    var x, y := End(l, initiator), End(l, !initiator);
    forall e: (HubId, int) ensures js[i].got[e] <= multiset{y}[e] {
      assert e == (e.0, e.1);
      NeverMore(wire, x.0, LocalOf(l, initiator), l.aa, LinkAims(l, ids), pdu, js, i, e.0, e.1);
      ArrivingOnce(wire, l, initiator, e);
    }
  }

  /** A journey on which nothing fails is one of these. */
  lemma HopsAreLoss(wire: Wiring, hubs: map<HubId, HubState>, l: Conn2, initiator: bool, hdr: Hdr, pdu: seq<Byte>, js: seq<Journey>, air: Air)
    requires js != [] && LinkJourney(wire, l, initiator, hdr, pdu, js) && Carried(hubs, l)
    requires LinkStartBy(wire, l, initiator, hdr, pdu, js[0], hubs, hubs[End(l, initiator).0].nodes[End(l, initiator).1].peer, air)
    requires forall i :: 0 < i < |js| ==> Hops(wire, pdu, js[i - 1], js[i])
    ensures LinkLoss(wire, l, initiator, hubs.Keys, pdu, js)
  {
    hide LinkJourney, Forward, HubOk, HubSane, Hop, Hops, Due, LossMove;
    var x := End(l, initiator);
    var src := hubs[x.0].nodes[x.1].peer;
    SenderPlain(wire, hubs, x.0, x.1);
    CarriedAims(hubs, l, initiator);
    assert js[0].hubs.Keys == hubs.Keys;
    assert OnLink(l.aa, hdr) by { LinkOn(wire, l, initiator, hdr, pdu, js); }
    assert LossStartBy(wire, x.0, LocalOf(l, initiator), l.aa, pdu, js[0], hubs, src, hdr, air);
    forall i | 0 < i < |js| ensures LossMove(wire, l.aa, LinkAims(l, hubs.Keys), pdu, js[i - 1], js[i]) {
      HopIsLoss(wire, l, initiator, hdr, pdu, js, i);
    }
  }

  lemma LinkOn(wire: Wiring, l: Conn2, initiator: bool, hdr: Hdr, pdu: seq<Byte>, js: seq<Journey>)
    requires LinkJourney(wire, l, initiator, hdr, pdu, js)
    ensures OnLink(l.aa, hdr)
  {
  }

  lemma HopIsLoss(wire: Wiring, l: Conn2, initiator: bool, hdr: Hdr, pdu: seq<Byte>, js: seq<Journey>, i: nat)
    requires LinkJourney(wire, l, initiator, hdr, pdu, js) && 0 < i < |js| && Hops(wire, pdu, js[i - 1], js[i])
    ensures LossMove(wire, l.aa, LinkAims(l, js[0].hubs.Keys), pdu, js[i - 1], js[i])
  {
    hide LinkJourney, DataJourney, Hop, Due, NetSane, HubOk, Counted, Tracking, LinkAims;
    var aims := LinkAims(l, js[0].hubs.Keys);
    LinkIsData(wire, l, initiator, hdr, pdu, js);
    DataJourneyInv(wire, End(l, initiator).0, LocalOf(l, initiator), l.aa, aims, hdr, pdu, js, i - 1);
    var j, k := js[i - 1], js[i];
    var c: Copy, air: Air :| HopsBy(wire, pdu, j, k, c, air);
    assert j.(hubs := j.hubs) == j;
    assert MovesBy(wire, pdu, j, k, j.hubs, c, air) && AtMostAimed(j.hubs, l.aa, aims);
  }

  /** And only then: on a connection that is up, no PDU ever reaches another node or the far
      end twice, whatever fails, if and only if at most one walk leads there and none back. */
  lemma AtMostOnceIff(wire: Wiring, hubs: map<HubId, HubState>, l: Conn2, initiator: bool, pdu: seq<Byte>)
    requires NetOk(wire, hubs) && Carried(hubs, l)
    ensures AtMostOneWay(wire, End(l, initiator).0, End(l, !initiator).0) <==>
      forall js: seq<Journey>, i: nat :: LinkLoss(wire, l, initiator, hubs.Keys, pdu, js) && i < |js| ==>
        js[i].got <= multiset{End(l, !initiator)}
  {
    hide NetOk, LossJourney, LinkJourney, LinkStartBy, LinkLoss, AtMostOneWay, Hops;
    if AtMostOneWay(wire, End(l, initiator).0, End(l, !initiator).0) {
      forall js: seq<Journey>, i: nat | LinkLoss(wire, l, initiator, hubs.Keys, pdu, js) && i < |js|
        ensures js[i].got <= multiset{End(l, !initiator)}
      {
        AtMostOnce(wire, l, initiator, hubs.Keys, pdu, js, i);
      }
    } else {
      var hdr := Hdr(l.aa, 0, 0, LL_DATA, 0);
      var js := LinkDelivers(wire, hubs, l, initiator, hdr, pdu, CLEAR);
      HopsAreLoss(wire, hubs, l, initiator, hdr, pdu, js, CLEAR);
      ExactlyOnceIff(wire, l, initiator, hdr, pdu, js, |js| - 1);
    }
  }
}
