/** Who gets data PDUs at one hub, over every run: the endpoints of the latest CONNECT_IND,
    at the sockets that have greeted as them, and nobody else. */
module HubSafety {
  import opened Wire
  import opened HubModel
  import opened HubInvariants
  import opened HubRouting
  import opened HubTraffic

  // ------------------------------------------------------------------ one frame

  /** A data PDU put on the way to some socket. */
  predicate IsData(e: Entry) {
    e.Attempt? && e.hdr.llType == LL_DATA
  }

  /** The sockets that state s lets have a data PDU: bridges, and the socket of a node that
      the route names. */
  ghost predicate Entitled(s: HubState, e: Entry)
    requires e.Attempt?
  {
    && e.dst < |s.peers| && s.peers[e.dst].open
    && if e.node < 0 then s.peers[e.dst].bridge && e.node == -1
       else
         && e.node < |s.nodes| && s.nodes[e.node].peer == e.dst && s.peers[e.dst].node == e.node
         && e.hdr.aa in Routes(s.conns)
         && (e.node == Routes(s.conns)[e.hdr.aa].0 || e.node == Routes(s.conns)[e.hdr.aa].1)
  }

  /** An entry that concerns neither routes nor nodes. */
  predicate IsTapCopy(e: Entry) {
    e.Tapped? && e.node < 0
  }

  lemma TapEntries(s: HubState, src: nat, hdr: Hdr, air: Air)
    requires InRange(s) && Exact(s)
    ensures var taps := Verdicts(Taps, s, src, hdr, air, 0); forall i :: 0 <= i < |taps| ==> IsTapCopy(taps[i])
  {
    var taps := Verdicts(Taps, s, src, hdr, air, 0);
    forall i | 0 <= i < |taps| ensures IsTapCopy(taps[i]) {
      VerdictsMember(Taps, s, src, hdr, air, 0, taps[i]);
    }
  }

  lemma TrunkEntries(s: HubState, src: nat, hdr: Hdr, air: Air)
    requires InRange(s) && Exact(s)
    ensures forall e :: e in Verdicts(Trunks, s, src, hdr, air, 0) ==> e.Attempt? && e.node == -1 && Entitled(s, e)
  {
    forall e | e in Verdicts(Trunks, s, src, hdr, air, 0) ensures e.Attempt? && e.node == -1 && Entitled(s, e) {
      VerdictsMember(Trunks, s, src, hdr, air, 0, e);
    }
  }

  /** Every data PDU in the trace of a data frame goes to a socket entitled to it; and only
      taps are served before a node is. */
  lemma DataEntry(s: HubState, src: nat, a: int, hdr: Hdr, pdu: seq<Byte>, air: Air, log: seq<Entry>, k: nat)
    requires Inv(s) && Exact(s) && -1 <= a < |s.nodes| && hdr.llType == LL_DATA
    requires log == Handle(s, src, a, hdr, pdu, air).log && k < |log| && IsData(log[k])
    ensures Entitled(s, log[k])
    ensures log[k].node >= 0 ==> forall i :: 0 <= i < k ==> IsTapCopy(log[i])
  {
    hide Handle, Verdicts;
    DataLog(s, src, a, hdr, pdu, air);
    var n := Target(Routes(s.conns), hdr.aa, a);
    var taps, mid, trunks := Verdicts(Taps, s, src, hdr, air, 0), EndpointPart(s, n, hdr, air), Verdicts(Trunks, s, src, hdr, air, 0);
    TapEntries(s, src, hdr, air);
    TrunkEntries(s, src, hdr, air);
    if k < |taps| {
      assert false;
    } else if k < |taps| + |mid| {
      assert log[k] == mid[k - |taps|];
      forall i | 0 <= i < k ensures IsTapCopy(log[i]) {
        assert log[i] == taps[i];
      }
    } else {
      assert log[k] == trunks[k - |taps| - |mid|];
      assert log[k] in trunks;
    }
  }

  lemma AdvNoData(s: HubState, src: nat, a: int, hdr: Hdr, pdu: seq<Byte>, air: Air)
    requires InRange(s) && Exact(s) && -1 <= a < |s.nodes| && hdr.llType != LL_DATA
    ensures var log := Handle(s, src, a, hdr, pdu, air).log; forall i :: 0 <= i < |log| ==> !IsData(log[i])
  {
    hide Handle, Verdicts;
    var t := Overhear(s, src, a, hdr, air).s;
    TapEntries(s, src, hdr, air);
    if hdr.llType == LL_ADV {
      BroadcastLog(s, src, a, hdr, pdu, air);
      var fan := Verdicts(Fan, t, src, hdr, air, 0);
      forall i | 0 <= i < |fan| ensures !IsData(fan[i]) {
        VerdictsMember(Fan, t, src, hdr, air, 0, fan[i]);
      }
    } else {
      OtherLog(s, src, a, hdr, pdu, air);
    }
  }

  lemma OtherLog(s: HubState, src: nat, a: int, hdr: Hdr, pdu: seq<Byte>, air: Air)
    requires InRange(s) && Exact(s) && -1 <= a < |s.nodes| && hdr.llType != LL_DATA && hdr.llType != LL_ADV
    ensures Handle(s, src, a, hdr, pdu, air).log == Verdicts(Taps, s, src, hdr, air, 0)
  {
    OverhearLog(s, src, a, hdr, air);
  }

  /** The same for any event: data PDUs go to sockets that the state before it entitles. */
  lemma StepData(s: HubState, e: Event, k: nat)
    requires Inv(s) && Exact(s) && k < |Step(s, e).log| && IsData(Step(s, e).log[k])
    ensures var log := Step(s, e).log;
      Entitled(s, log[k]) && (log[k].node >= 0 ==> forall i :: 0 <= i < k ==> IsTapCopy(log[i]))
  {
    hide Handle;
    assert e.Heard? && Live(s, e.p);
    var ttl := Restamp(s.peers[e.p].bridge, e.hdr.ttl);
    assert ttl.Some?;
    var hdr, a := e.hdr.(ttl := ttl.value), s.peers[e.p].node;
    var log := Handle(s, e.p, a, hdr, e.pdu, e.air).log;
    assert log == Step(s, e).log;
    if hdr.llType != LL_DATA {
      AdvNoData(s, e.p, a, hdr, e.pdu, e.air);
      assert false;
    } else {
      DataEntry(s, e.p, a, hdr, e.pdu, e.air, log, k);
    }
  }

  // ------------------------------------------------------- where an entry comes from

  /** Entry k of the whole trace is entry k - |earlier trace| of the event m that made it. */
  ghost predicate MadeBy(events: seq<Event>, k: nat, m: nat) {
    && m < |events| && k < |After(events).log|
    && After(events[..m]).log <= After(events).log
    && var before := After(events[..m]); var log := Step(before.s, events[m]).log;
    && |before.log| <= k < |before.log| + |log| <= |After(events).log|
    && forall i :: |before.log| <= i < |before.log| + |log| ==> After(events).log[i] == log[i - |before.log|]
  }

  lemma {:induction false} Maker(events: seq<Event>, k: nat) returns (m: nat)
    requires k < |After(events).log|
    ensures MadeBy(events, k, m)
  {
    hide Step;
    var n := |events| - 1;
    var front := events[..n];
    if k < |After(front).log| {
      m := Maker(front, k);
      assert front[..m] == events[..m];
    } else {
      m := n;
    }
  }

  lemma {:induction false} FrontDisciplined(events: seq<Event>, m: nat)
    requires Disciplined(events) && m <= |events|
    ensures Disciplined(events[..m])
  {
    if m == |events| {
      assert events[..m] == events;
    } else {
      FrontDisciplined(events[..|events| - 1], m);
      assert events[..|events| - 1][..m] == events[..m];
    }
  }

  // ------------------------------------------------------------------- greetings

  /** The socket in slot p greeted as node n in event g and has been bound to n, without a
      break, up to event m. */
  ghost predicate GreetedAs(events: seq<Event>, g: nat, m: nat, p: nat, n: int) {
    && g < m <= |events| && events[g].Greeted? && events[g].p == p && !events[g].monitor
    && (forall i :: g < i <= m ==> BoundTo(After(events[..i]).s, p, n))
    && After(events[..g + 1]).s.nodes[n].id == events[g].nid
  }

  predicate BoundTo(s: HubState, p: nat, n: int) {
    p < |s.peers| && 0 <= n < |s.nodes| && s.peers[p].node == n
  }

  /** Only a greeting binds a socket to a node. */
  lemma StepBinds(s: HubState, e: Event, p: nat, n: int)
    requires InRange(s) && BoundTo(Step(s, e).s, p, n) && !BoundTo(s, p, n)
    ensures e.Greeted? && e.p == p && !e.monitor && Step(s, e).s.nodes[n].id == e.nid
  {
    match e
    case Joined(bridge) =>
    case Greeted(q, nid, monitor) =>
      if Live(s, q) && !monitor { BindBinds(s, q, nid, p, n); }
    case Heard(q, hdr, pdu, air) =>
      if Live(s, q) {
        HeardBinds(s, q, hdr, pdu, air, p, n);
      }
    case Left(q) =>
    case Declared(nid) =>
  }

  lemma BindBinds(s: HubState, q: nat, nid: NodeId, p: nat, n: int)
    requires InRange(s) && q < |s.peers| && BoundTo(Bind(s, q, nid), p, n) && !BoundTo(s, p, n)
    ensures p == q && Bind(s, q, nid).nodes[n].id == nid
  {
  }

  lemma HeardBinds(s: HubState, q: nat, hdr: Hdr, pdu: seq<Byte>, air: Air, p: nat, n: int)
    requires InRange(s) && q < |s.peers| && BoundTo(Forward(s, q, hdr, pdu, air).s, p, n)
    ensures BoundTo(s, p, n)
  {
    hide Forward;
    ForwardCloses(s, q, hdr, pdu, air);
  }

  lemma {:induction false} BoundSince(events: seq<Event>, p: nat, n: int) returns (g: nat)
    requires BoundTo(After(events).s, p, n)
    ensures GreetedAs(events, g, |events|, p, n)
  {
    hide Step;
    var k := |events| - 1;
    var front := events[..k];
    assert events[..|events|] == events;
    if BoundTo(After(front).s, p, n) {
      g := BoundSince(front, p, n);
      GreetedLater(events, g, k, p, n);
    } else {
      StepBinds(After(front).s, events[k], p, n);
      g := k;
    }
  }

  // ------------------------------------------------------------- CONNECT_INDs observed

  /** Entry e tells of a CONNECT_IND that socket events[m].p sent in event m: the node that
      sent it, and the node that then held the advertiser's address it names. */
  ghost predicate Truthful(events: seq<Event>, m: nat, e: Entry)
    requires e.Observed?
  {
    && m < |events| && events[m].Heard? && events[m].hdr.llType == LL_ADV
    && ParseConnectInd(events[m].pdu) == Some(ConnectInd(ParsedInit(events[m].pdu), e.adva, e.aa))
    && var s := After(events[..m]).s;
    && events[m].p < |s.peers| && e.a == s.peers[events[m].p].node
    && var owners := Owners(Learn(s, e.a, events[m].hdr.txAddr).nodes);
    && e.b == if e.adva in owners then owners[e.adva] else -1
  }

  function ParsedInit(pdu: seq<Byte>): Addr {
    if ParseConnectInd(pdu).Some? then ParseConnectInd(pdu).value.inita else 0
  }

  lemma HandleObserves(s: HubState, src: nat, a: int, hdr: Hdr, pdu: seq<Byte>, air: Air, e: Entry)
    requires Inv(s) && Exact(s) && -1 <= a < |s.nodes| && e.Observed? && e in Handle(s, src, a, hdr, pdu, air).log
    ensures hdr.llType == LL_ADV && ParseConnectInd(pdu) == Some(ConnectInd(ParsedInit(pdu), e.adva, e.aa)) && e.a == a
    ensures var owners := Owners(Learn(s, a, hdr.txAddr).nodes); e.b == if e.adva in owners then owners[e.adva] else -1
  {
    hide Handle, Verdicts, Overhear, Learn;
    var t := Overhear(s, src, a, hdr, air).s;
    TapEntries(s, src, hdr, air);
    if hdr.llType == LL_ADV {
      BroadcastLog(s, src, a, hdr, pdu, air);
      VerdictsMember(Fan, t, src, hdr, air, 0, e);
      assert e in SnoopAny(t, a, pdu).log;
      OverhearQuiet(s, src, a, hdr, air);
      LearnKeeps(s, a, hdr.txAddr);
      LookupIsOwner(t.nodes, e.adva);
    } else if hdr.llType == LL_DATA {
      DataLog(s, src, a, hdr, pdu, air);
      VerdictsMember(Trunks, s, src, hdr, air, 0, e);
      assert false;
    } else {
      OtherLog(s, src, a, hdr, pdu, air);
      assert false;
    }
  }

  /** Every CONNECT_IND in the trace of a run is told truthfully. */
  lemma ObservedIsTruthful(events: seq<Event>, k: nat) returns (m: nat)
    requires Disciplined(events) && k < |After(events).log| && After(events).log[k].Observed?
    ensures MadeBy(events, k, m) && Truthful(events, m, After(events).log[k])
  {
    hide Handle, After;
    m := Maker(events, k);
    var s, ev, e := After(events[..m]).s, events[m], After(events).log[k];
    FrontDisciplined(events, m);
    ReachableInv(events[..m]);
    ReachableExact(events[..m]);
    var log := Step(s, ev).log;
    assert e == log[k - |After(events[..m]).log|] && e in log;
    assert ev.Heard? && Live(s, ev.p);
    var ttl := Restamp(s.peers[ev.p].bridge, ev.hdr.ttl);
    assert ttl.Some?;
    HandleObserves(s, ev.p, s.peers[ev.p].node, ev.hdr.(ttl := ttl.value), ev.pdu, ev.air, e);
  }

  // ------------------------------------------------------------------ the main result

  /** What a route in the history means: it was set by the latest CONNECT_IND observed
      for the address, and since then neither endpoint's peer has gone away. */
  lemma {:induction false} RouteOrigin(log: seq<Entry>, aa: nat) returns (j: nat)
    requires aa in Replay(map[], log)
    ensures j < |log| && log[j].Observed? && log[j].aa == aa
    ensures Replay(map[], log)[aa] == (log[j].a, log[j].b)
    ensures forall k :: j < k < |log| ==>
      && !(log[k].Observed? && log[k].aa == aa)
      && !Departs(log[k], log[j].a) && !Departs(log[k], log[j].b)
  {
    var k := |log| - 1;
    var e := log[k];
    if e.Observed? && e.aa == aa {
      j := k;
    } else {
      j := RouteOrigin(log[..k], aa);
    }
  }

  /** Entry j tells of the latest CONNECT_IND for its Access Address before entry k, and
      neither of the two nodes it names has lost its socket since. */
  ghost predicate LatestRoute(log: seq<Entry>, j: nat, k: nat, aa: nat) {
    && j < k <= |log| && log[j].Observed? && log[j].aa == aa
    && forall i :: j < i < k ==>
         && !(log[i].Observed? && log[i].aa == aa)
         && !Departs(log[i], log[j].a) && !Departs(log[i], log[j].b)
  }

  /** Safety of the virtual link at one hub, over every run with one greeting a socket. A
      data PDU is put on the way to a socket only if that socket is a bridge; or if it has
      greeted as some node n and not been replaced or closed since, the latest CONNECT_IND
      for the PDU's Access Address was sent by n or named an advertiser's address that n
      held at that moment, and neither end of that connection has lost its socket since. So
      a socket in a slot that another has left gets nothing that was meant for the other,
      and after an end has left nobody gets anything without a new CONNECT_IND. */
  lemma DataReachesOnlyEndpoints(events: seq<Event>, k: nat) returns (m: nat, g: nat, j: nat, r: nat)
    requires Disciplined(events) && k < |After(events).log| && IsData(After(events).log[k])
    ensures MadeBy(events, k, m)
    ensures var log := After(events).log; var e := log[k]; var s := After(events[..m]).s;
      && e.dst < |s.peers| && s.peers[e.dst].open
      && (e.node < 0 ==> s.peers[e.dst].bridge)
      && (e.node >= 0 ==>
            && GreetedAs(events, g, m, e.dst, e.node)
            && LatestRoute(log, j, k, e.hdr.aa) && (log[j].a == e.node || log[j].b == e.node)
            && MadeBy(events, j, r) && Truthful(events, r, log[j]))
  {
    hide After, Step, Disciplined;
    m := Maker(events, k);
    g, j, r := 0, 0, 0;
    var front := events[..m];
    var before, log := After(front), After(events).log;
    FrontDisciplined(events, m);
    ReachableInv(front);
    ReachableExact(front);
    StepData(before.s, events[m], k - |before.log|);
    if log[k].node >= 0 {
      g := BoundSince(front, log[k].dst, log[k].node);
      GreetedLater(events, g, m, log[k].dst, log[k].node);
      RoutesAreHistory(front);
      j := RouteOrigin(before.log, log[k].hdr.aa);
      RouteHolds(before.log, log, j, k, log[k].hdr.aa);
      r := ObservedIsTruthful(events, j);
    }
  }

  lemma GreetedLater(events: seq<Event>, g: nat, m: nat, p: nat, n: int)
    requires m <= |events| && GreetedAs(events[..m], g, m, p, n)
    ensures GreetedAs(events, g, m, p, n)
  {
    hide After;
    forall i | g < i <= m ensures BoundTo(After(events[..i]).s, p, n) {
      assert events[..m][..i] == events[..i];
    }
    assert events[..m][..g + 1] == events[..g + 1];
  }

  /** A route at the start of an event still is the latest when only taps were served. */
  lemma RouteHolds(before: seq<Entry>, log: seq<Entry>, j: nat, k: nat, aa: nat)
    requires before <= log && |before| <= k < |log| && LatestRoute(before, j, |before|, aa)
    requires forall i :: |before| <= i < k ==> IsTapCopy(log[i])
    ensures LatestRoute(log, j, k, aa) && log[j] == before[j]
  {
    forall i | j < i < k
      ensures !(log[i].Observed? && log[i].aa == aa) && !Departs(log[i], log[j].a) && !Departs(log[i], log[j].b)
    {
      if i < |before| {
        assert log[i] == before[i];
      }
    }
  }

  // ------------------------------------------------- the socket a frame came from

  /** Over every run with one greeting a socket: a frame closes the very socket it came from
      only if the node behind that socket had sent a CONNECT_IND for the frame's Access
      Address that named an address the node itself held. */
  lemma SenderLostOrigin(events: seq<Event>) returns (j: nat, r: nat)
    requires Disciplined(events) && events != [] && events[|events| - 1].Heard?
    requires var s, e := After(events[..|events| - 1]).s, events[|events| - 1];
      Live(s, e.p) && !Live(After(events).s, e.p)
    ensures var front, e := events[..|events| - 1], events[|events| - 1]; var log := After(front).log;
      && e.hdr.llType == LL_DATA && LatestRoute(log, j, |log|, e.hdr.aa)
      && log[j].a == log[j].b == After(front).s.peers[e.p].node >= 0
      && MadeBy(front, j, r) && Truthful(front, r, log[j])
  {
    hide Forward, Disciplined, Routes, Handle, Truthful, MadeBy, Exact, Inv;
    var n := |events| - 1;
    var front, e := events[..n], events[n];
    FrontDisciplined(events, n);
    ReachableInv(front);
    ReachableExact(front);
    SenderLostIff(After(front).s, e.p, e.hdr, e.pdu, e.air);
    RoutesAreHistory(front);
    j := RouteOrigin(After(front).log, e.hdr.aa);
    r := ObservedIsTruthful(front, j);
  }
}
