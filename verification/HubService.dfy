/** What the hub does for its sockets, told on the tables' own fields: who gets a slot, what
    a greeting binds, what ends it, and that a socket which has greeted is served every
    advertising frame until it goes. */
module HubService {
  import opened Wire
  import opened HubModel
  import opened HubInvariants
  import opened HubRouting
  import opened HubTraffic

  // ------------------------------------------------------------------ joining

  /** A new socket gets a slot that was free, or one more, and disturbs nobody; it is refused
      if and only if 300 sockets are open. */
  lemma JoinTakesFreeSlot(s: HubState, bridge: bool) returns (i: int)
    requires Inv(s)
    ensures var t := Step(s, Joined(bridge)).s;
      && -1 <= i < |t.peers| && t.nodes == s.nodes && t.conns == s.conns && t.stats == s.stats
      && (i < 0 ==> t == s && |s.peers| == 300 && forall q :: 0 <= q < |s.peers| ==> s.peers[q].open)
      && (i >= 0 ==> t.peers[i] == Peer(true, bridge, false, -1) && (i == |s.peers| || !s.peers[i].open))
      && |t.peers| == (if i == |s.peers| then |s.peers| + 1 else |s.peers|)
      && (forall q :: 0 <= q < |s.peers| && q != i ==> t.peers[q] == s.peers[q])
  {
    i := FirstClosed(s.peers, 0);
    if i == 300 {
      i := -1;
    }
  }

  // ----------------------------------------------------------------- greeting

  /** Some node has this name, or there is room for one more. */
  predicate Nameable(s: HubState, nid: NodeId) {
    |s.nodes| < 300 || exists n :: 0 <= n < |s.nodes| && s.nodes[n].id == nid
  }

  /** A greeting binds its socket to the node of that name, old or new, whose former socket
      is unbound; nothing else changes. It is ignored if and only if the name is new and the
      table full. */
  lemma GreetingBinds(s: HubState, p: nat, nid: NodeId) returns (n: int)
    requires Inv(s) && Exact(s) && Live(s, p) && Ungreeted(s, p)
    ensures var t := Step(s, Greeted(p, nid, false)).s;
      && -1 <= n < |t.nodes| && (n >= 0 <==> Nameable(s, nid)) && (n < 0 ==> t == s)
      && t.conns == s.conns && t.stats == s.stats && |t.peers| == |s.peers|
      && (n >= 0 ==>
            && t.nodes[n].id == nid && t.nodes[n].peer == p && t.peers[p] == s.peers[p].(node := n)
            && (if n < |s.nodes| then |t.nodes| == |s.nodes| && t.nodes[n] == s.nodes[n].(peer := p)
                else |t.nodes| == |s.nodes| + 1 && t.nodes[n] == Node(nid, [], p, 0, 0, 0)))
      && (forall k :: 0 <= k < |s.nodes| && k != n ==> t.nodes[k] == s.nodes[k])
      && (forall q :: 0 <= q < |s.peers| && q != p ==>
            t.peers[q] == if n >= 0 && s.peers[q].open && s.peers[q].node == n then s.peers[q].(node := -1) else s.peers[q])
  {
    var named := Named(s.nodes, nid);
    n := FirstNamed(named, nid, 0);
    if FirstNamed(s.nodes, nid, 0) < 0 && |s.nodes| < MAX_NODES {
      assert named[|s.nodes|].id == nid;
      assert n == |s.nodes|;
    }
  }

  /** A monitor's greeting makes its socket a tap, and that is all. */
  lemma MonitorTaps(s: HubState, p: nat, nid: NodeId)
    requires InRange(s) && Live(s, p)
    ensures Step(s, Greeted(p, nid, true)).s == s.(peers := s.peers[p := s.peers[p].(monitor := true)])
  {
  }

  // ------------------------------------------------------------------- leaving

  /** A socket that leaves blanks its slot and takes its node offline, and no other; every
      route that names the node goes, and no other. */
  lemma LeavingFrees(s: HubState, p: nat)
    requires Inv(s) && Live(s, p)
    ensures var t, n := Step(s, Left(p)).s, s.peers[p].node;
      && t.peers == s.peers[p := BLANK_PEER] && |t.nodes| == |s.nodes|
      && (forall k :: 0 <= k < |s.nodes| ==> t.nodes[k] == if k == n then s.nodes[k].(peer := -1) else s.nodes[k])
      && Routes(t.conns) == if n >= 0 then Without(Routes(s.conns), n) else Routes(s.conns)
  {
    if s.peers[p].node >= 0 {
      DropNodeIsWithout(s.conns, s.peers[p].node);
    }
  }

  // ------------------------------------------------------- what a frame closes

  ghost predicate Lost(log: seq<Entry>, d: nat) {
    exists e :: e in About(log, d) && Fails(e)
  }

  lemma LostOne(log: seq<Entry>, d: nat, e: Entry)
    requires About(log, d) == [e]
    ensures Lost(log, d) <==> Fails(e)
  {
    assert e in About(log, d);
  }

  lemma BroadcastCloses(s: HubState, src: nat, a: int, hdr: Hdr, pdu: seq<Byte>, air: Air, d: nat)
    requires InRange(s) && -1 <= a < |s.nodes| && d < |s.peers|
    ensures Broadcast(s, src, a, hdr, pdu, air).s.peers[d] ==
      if IsListener(s, src, d) && Fails(Verdict(Fan, s, hdr, air, d)) then BLANK_PEER else s.peers[d]
  {
    IterateCloses(Fan, SnoopAny(s, a, pdu).s, src, hdr, air, 0, d);
  }

  lemma DataCloses(s: HubState, src: nat, a: int, hdr: Hdr, air: Air, d: nat)
    requires Inv(s) && Exact(s) && -1 <= a < |s.nodes| && d < |s.peers|
    ensures var n := Target(Routes(s.conns), hdr.aa, a);
      RouteData(s, src, a, hdr, air).s.peers[d] ==
        if 0 <= n < |s.nodes| && s.nodes[n].peer == d && air.hear(d).Some? && air.send(d).Failed? then BLANK_PEER
        else if IsTrunk(s, src, d) && air.send(d).Failed? then BLANK_PEER
        else s.peers[d]
  {
    hide Routes;
    FindConnIsRoute(s.conns, hdr.aa);
    var c := FindConn(s.conns, hdr.aa);
    if c < 0 {
      IterateCloses(Trunks, s, src, hdr, air, 0, d);
    } else {
      var t, n := CountPdu(s, c), Opposite(s.conns[c], a);
      EndpointCloses(t, n, hdr, air, d);
      IterateCloses(Trunks, ToEndpoint(t, n, hdr, air).s, src, hdr, air, 0, d);
    }
  }

  lemma AdvCloses(s: HubState, src: nat, a: int, hdr: Hdr, pdu: seq<Byte>, air: Air, d: nat)
    requires InRange(s) && Exact(s) && -1 <= a < |s.nodes| && d < |s.peers| && hdr.llType == LL_ADV
    ensures var r := Handle(s, src, a, hdr, pdu, air); r.s.peers[d] == if Lost(r.log, d) then BLANK_PEER else s.peers[d]
  {
    hide Overhear, Broadcast, Lost;
    var t := Overhear(s, src, a, hdr, air).s;
    HeardAbout(s, src, a, hdr, pdu, air, d);
    TapLeaves(s, src, a, hdr, air, d);
    BroadcastCloses(t, src, a, hdr, pdu, air, d);
    LostIs(Handle(s, src, a, hdr, pdu, air).log, d);
  }

  /** Whether a trace that says one thing of a socket at most loses it. */
  lemma LostIs(log: seq<Entry>, d: nat)
    ensures About(log, d) == [] ==> !Lost(log, d)
    ensures |About(log, d)| == 1 ==> (Lost(log, d) <==> Fails(About(log, d)[0]))
  {
    if |About(log, d)| == 1 {
      LostOne(log, d, About(log, d)[0]);
    }
  }

  lemma RoutedCloses(s: HubState, src: nat, a: int, hdr: Hdr, pdu: seq<Byte>, air: Air, d: nat)
    requires Inv(s) && Exact(s) && -1 <= a < |s.nodes| && d < |s.peers| && hdr.llType == LL_DATA
    ensures var r := Handle(s, src, a, hdr, pdu, air); r.s.peers[d] == if Lost(r.log, d) then BLANK_PEER else s.peers[d]
  {
    hide Overhear, RouteData, Routes, Lost;
    var t := Overhear(s, src, a, hdr, air).s;
    DataOutcomes(s, src, a, hdr, pdu, air, d);
    OverhearKeeps(s, src, a, hdr, air);
    OverhearExact(s, src, a, hdr, air);
    OverhearQuiet(s, src, a, hdr, air);
    TapLeaves(s, src, a, hdr, air, d);
    DataCloses(t, src, a, hdr, air, d);
    LostIs(Handle(s, src, a, hdr, pdu, air).log, d);
  }

  lemma OtherCloses(s: HubState, src: nat, a: int, hdr: Hdr, pdu: seq<Byte>, air: Air, d: nat)
    requires InRange(s) && Exact(s) && -1 <= a < |s.nodes| && d < |s.peers| && hdr.llType != LL_ADV && hdr.llType != LL_DATA
    ensures var r := Handle(s, src, a, hdr, pdu, air); r.s.peers[d] == if Lost(r.log, d) then BLANK_PEER else s.peers[d]
  {
    hide Overhear, Lost;
    OverhearAbout(s, src, a, hdr, air, d);
    TapLeaves(s, src, a, hdr, air, d);
    assert Handle(s, src, a, hdr, pdu, air).log == Overhear(s, src, a, hdr, air).log;
    LostIs(Handle(s, src, a, hdr, pdu, air).log, d);
  }

  /** A frame closes exactly the sockets to which its trace shows a failed write, and leaves
      the entries of all others as they were. */
  lemma FrameCloses(s: HubState, src: nat, hdr: Hdr, pdu: seq<Byte>, air: Air, d: nat)
    requires Inv(s) && Exact(s) && Live(s, src) && d < |s.peers|
    ensures var r := Forward(s, src, hdr, pdu, air); r.s.peers[d] == if Lost(r.log, d) then BLANK_PEER else s.peers[d]
  {
    hide Handle, Lost;
    var a := s.peers[src].node;
    var ttl := Restamp(s.peers[src].bridge, hdr.ttl);
    if ttl.Some? {
      var h := hdr.(ttl := ttl.value);
      if h.llType == LL_ADV {
        AdvCloses(s, src, a, h, pdu, air, d);
      } else if h.llType == LL_DATA {
        RoutedCloses(s, src, a, h, pdu, air, d);
      } else {
        OtherCloses(s, src, a, h, pdu, air, d);
      }
    } else {
      LostIs([], d);
    }
  }

  // ------------------------------------------------------------ whom a frame teaches

  /** Every node holds the same addresses as before. */
  predicate SameAddrs(s: HubState, t: HubState) {
    |t.nodes| == |s.nodes| && forall n :: 0 <= n < |s.nodes| ==> t.nodes[n].addrs == s.nodes[n].addrs
  }

  lemma LoopStepAddrs(loop: Loop, s: HubState, src: nat, hdr: Hdr, air: Air, k: nat)
    requires InRange(s) && k < |s.peers|
    ensures SameAddrs(s, LoopStep(loop, s, src, hdr, air, k).s)
  {
  }

  lemma IterateAddrs(loop: Loop, s: HubState, src: nat, hdr: Hdr, air: Air)
    requires InRange(s)
    ensures SameAddrs(s, Iterate(loop, s, src, hdr, air, 0).s)
  {
    hide LoopStep, Iterate;
    var p := (k: nat, r: Run) => SameAddrs(s, r.s);
    forall r: Run, k: nat | InRange(r.s) && k < |r.s.peers| && p(k, r)
      ensures p(k + 1, Then(r, LoopStep(loop, r.s, src, hdr, air, k)))
    {
      LoopStepAddrs(loop, r.s, src, hdr, air, k);
    }
    IterateThreads(p, loop, s, [], src, hdr, air, 0);
  }

  lemma ToEndpointAddrs(s: HubState, n: int, hdr: Hdr, air: Air)
    requires InRange(s) && -1 <= n < |s.nodes|
    ensures SameAddrs(s, ToEndpoint(s, n, hdr, air).s)
  {
  }

  lemma DispatchAddrs(s: HubState, src: nat, a: int, hdr: Hdr, pdu: seq<Byte>, air: Air)
    requires InRange(s) && -1 <= a < |s.nodes|
    ensures SameAddrs(s, Dispatch(s, src, a, hdr, pdu, air).s)
  {
    hide Iterate, ToEndpoint;
    if hdr.llType == LL_ADV {
      IterateAddrs(Fan, SnoopAny(s, a, pdu).s, src, hdr, air);
    } else if hdr.llType == LL_DATA {
      var c := FindConn(s.conns, hdr.aa);
      if c < 0 {
        IterateAddrs(Trunks, s, src, hdr, air);
      } else {
        var t, n := CountPdu(s, c), Opposite(s.conns[c], a);
        ToEndpointAddrs(t, n, hdr, air);
        IterateAddrs(Trunks, ToEndpoint(t, n, hdr, air).s, src, hdr, air);
      }
    }
  }

  /** What a frame teaches the hub: afterwards its sender's node is found under the address
      the frame gives, if that is not zero and the node held it or holds fewer than eight, and
      no other node holds it; all other holdings are as before. A frame of a socket without a
      node, and one that has expired, teaches nothing. */
  lemma FrameTeaches(s: HubState, src: nat, hdr: Hdr, pdu: seq<Byte>, air: Air)
    requires Inv(s) && Exact(s) && Live(s, src)
    ensures var t, a, x := Forward(s, src, hdr, pdu, air).s, s.peers[src].node, hdr.txAddr;
      && |t.nodes| == |s.nodes|
      && (a < 0 || x == 0 ==> SameAddrs(s, t))
      && (a >= 0 && x != 0 ==>
            && (x in t.nodes[a].addrs <==> x in s.nodes[a].addrs || |s.nodes[a].addrs| < 8)
            && forall n, y :: 0 <= n < |s.nodes| ==>
                 if y == x then (n != a ==> y !in t.nodes[n].addrs) else (y in t.nodes[n].addrs <==> y in s.nodes[n].addrs))
  {
    hide Overhear, Dispatch, Iterate;
    var a := s.peers[src].node;
    var ttl := Restamp(s.peers[src].bridge, hdr.ttl);
    if ttl.None? {
      assert a == -1;
    } else {
      var h := hdr.(ttl := ttl.value);
      var u := Overhear(s, src, a, h, air).s;
      OverhearAddrs(s, src, a, h, air);
      DispatchAddrs(u, src, a, h, pdu, air);
      LearnTeaches(s, a, hdr.txAddr);
    }
  }

  lemma OverhearAddrs(s: HubState, src: nat, a: int, hdr: Hdr, air: Air)
    requires InRange(s) && -1 <= a < |s.nodes|
    ensures SameAddrs(Learn(s, a, hdr.txAddr), Overhear(s, src, a, hdr, air).s)
  {
    hide Iterate;
    IterateAddrs(Taps, Learn(s, a, hdr.txAddr), src, hdr, air);
  }

  lemma LearnTeaches(s: HubState, a: int, x: Addr)
    requires Inv(s) && -1 <= a < |s.nodes|
    ensures var t := Learn(s, a, x);
      && |t.nodes| == |s.nodes|
      && (a < 0 || x == 0 ==> SameAddrs(s, t))
      && (a >= 0 && x != 0 ==>
            && (x in t.nodes[a].addrs <==> x in s.nodes[a].addrs || |s.nodes[a].addrs| < 8)
            && forall n, y :: 0 <= n < |s.nodes| ==>
                 if y == x then (n != a ==> y !in t.nodes[n].addrs) else (y in t.nodes[n].addrs <==> y in s.nodes[n].addrs))
  {
    if a >= 0 && x != 0 {
      var heard := s.nodes[a := s.nodes[a].(txPdus := s.nodes[a].txPdus + 1)];
      NodeTableSame(s.nodes, heard, s.stats.droppedModel);
      AddAddrHoldings(heard, a, x);
    }
  }

  // ------------------------------------------------------------ what a request records

  /** An advertising frame records a connection if and only if it is a whole CONNECT_IND with
      an unreserved Access Address, and the table has an entry for that or a free one. */
  lemma RequestRecorded(s: HubState, src: nat, hdr: Hdr, pdu: seq<Byte>, air: Air)
    requires Inv(s) && Exact(s) && Live(s, src) && hdr.llType == LL_ADV && (s.peers[src].bridge ==> hdr.ttl > 0)
    ensures (exists e :: e in Forward(s, src, hdr, pdu, air).log && e.Observed?) <==>
      && |pdu| >= 18 && pdu[0] % 16 == 5 && Le(pdu[14..18]) != 0 && Le(pdu[14..18]) != 0x8E89BED6
      && (Le(pdu[14..18]) in Routes(s.conns) || |s.conns| < 512 || exists i :: 0 <= i < |s.conns| && !s.conns[i].active)
  {
    hide Handle, Routes, Verdicts, Overhear, Le;
    var h, a := Stamped(s, src, hdr), s.peers[src].node;
    assert Restamp(s.peers[src].bridge, hdr.ttl) == Some(h.ttl);
    var t := Overhear(s, src, a, h, air).s;
    BroadcastLog(s, src, a, h, pdu, air);
    OverhearKeeps(s, src, a, h, air);
    OverhearQuiet(s, src, a, h, air);
    NoneObserved(Taps, s, src, h, air);
    NoneObserved(Fan, t, src, h, air);
    var snooped := SnoopAny(t, a, pdu).log;
    assert (exists e :: e in Forward(s, src, hdr, pdu, air).log && e.Observed?) <==> snooped != [] by {
      if snooped != [] {
        assert snooped[0] in Forward(s, src, hdr, pdu, air).log;
      }
    }
    if IsConnectInd(pdu) && |pdu| >= 18 && !Reserved(Le(pdu[14..18])) {
      IgnoredIff(t, a, pdu);
    }
  }

  lemma NoneObserved(loop: Loop, s: HubState, src: nat, hdr: Hdr, air: Air)
    ensures forall e :: e in Verdicts(loop, s, src, hdr, air, 0) ==> !e.Observed?
  {
    forall e | e in Verdicts(loop, s, src, hdr, air, 0) ensures !e.Observed? {
      VerdictsMember(loop, s, src, hdr, air, 0, e);
    }
  }

  // ---------------------------------------------------------------------- runs

  /** What ends a socket or its binding: it leaves, a write to it fails, or another socket
      greets under the name of its node. */
  ghost predicate Undisturbed(s: HubState, e: Event, d: nat)
    requires InRange(s) && d < |s.peers|
  {
    && e != Left(d) && !Lost(Step(s, e).log, d)
    && !(e.Greeted? && e.p == d)
    && !(e.Greeted? && s.peers[d].node >= 0 && s.nodes[s.peers[d].node].id == e.nid)
  }

  /** Nothing else changes the entry of an open socket. */
  lemma SocketStays(s: HubState, e: Event, d: nat)
    requires Inv(s) && Exact(s) && d < |s.peers| && s.peers[d].open && Undisturbed(s, e, d)
    requires e.Greeted? && Live(s, e.p) ==> Ungreeted(s, e.p)
    ensures d < |Step(s, e).s.peers| && Step(s, e).s.peers[d] == s.peers[d]
  {
    hide Forward, Lost;
    match e
    case Joined(bridge) =>
      var _ := JoinTakesFreeSlot(s, bridge);
    case Greeted(p, nid, monitor) =>
      if Live(s, p) && !monitor {
        var n := GreetingBinds(s, p, nid);
      }
    case Heard(p, hdr, pdu, air) =>
      if Live(s, p) {
        FrameCloses(s, p, hdr, pdu, air, d);
      }
    case Left(p) =>
      if Live(s, p) {
        LeavingFrees(s, p);
      }
    case Declared(nid) =>
  }

  /** From event g to event m nothing disturbs socket d. */
  ghost predicate LeftAlone(events: seq<Event>, g: nat, m: nat, d: nat) {
    m <= |events| && forall k :: g < k < m ==> d < |After(events[..k]).s.peers| && Undisturbed(After(events[..k]).s, events[k], d)
  }

  lemma {:induction false} StaysSo(events: seq<Event>, g: nat, m: nat, d: nat)
    requires g < m && Disciplined(events) && LeftAlone(events, g, m, d)
    requires Live(After(events[..g + 1]).s, d)
    ensures Live(After(events[..m]).s, d) && After(events[..m]).s.peers[d] == After(events[..g + 1]).s.peers[d]
  {
    hide After, Step, Disciplined, Undisturbed;
    if m > g + 1 {
      var k := m - 1;
      StaysSo(events, g, k, d);
      EventAt(events, k);
      SocketStays(After(events[..k]).s, events[k], d);
    }
  }

  /** Event k of a disciplined run, with the state before it in order. */
  lemma {:induction false} EventAt(events: seq<Event>, k: nat)
    requires Disciplined(events) && k < |events|
    ensures var s := After(events[..k]).s;
      && Inv(s) && Exact(s) && After(events[..k + 1]).s == Step(s, events[k]).s
      && (events[k].Greeted? && Live(s, events[k].p) ==> Ungreeted(s, events[k].p))
      && Disciplined(events[..k])
    decreases |events|
  {
    hide Step;
    var n := |events| - 1;
    if k < n {
      EventAt(events[..n], k);
      assert events[..n][..k] == events[..k] && events[..n][..k + 1] == events[..k + 1];
    } else {
      assert events[..k + 1] == events;
      ReachableInv(events[..k]);
      ReachableExact(events[..k]);
    }
  }

  /** Event k brings an unexpired frame from a socket other than d. */
  ghost predicate Brings(events: seq<Event>, k: nat, d: nat) {
    && k < |events| && events[k].Heard? && events[k].p != d
    && var s := After(events[..k]).s;
    && Live(s, events[k].p) && (s.peers[events[k].p].bridge ==> events[k].hdr.ttl > 0)
  }

  /** The event's frame comes to socket d, which has a node, once, or the model drops it. */
  ghost predicate HearsOnce(s: HubState, e: Event, d: nat)
    requires InRange(s)
  {
    && e.Heard? && Live(s, e.p) && d < |s.peers| && s.peers[d].node >= 0
    && About(Step(s, e).log, d) ==
         [match e.air.hear(d)
          case None => ModelDrop(d, s.peers[d].node)
          case Some(rssi) => Attempt(d, s.peers[d].node, Stamped(s, e.p, e.hdr).(rssi := rssi), e.air.send(d))]
  }

  /** The event's frame is shown to socket d once. */
  ghost predicate SeesOnce(s: HubState, e: Event, d: nat)
    requires InRange(s)
  {
    && e.Heard? && Live(s, e.p)
    && About(Step(s, e).log, d) == [Tapped(d, -1, Stamped(s, e.p, e.hdr), e.air.tap(d))]
  }

  /** Over every run: a socket that has greeted under a name, for which there was room, gets
      every advertising frame of another socket exactly once, or loses it to the propagation
      model, until something ends it. */
  lemma GreetedHearsAll(events: seq<Event>, g: nat, m: nat)
    requires Disciplined(events) && g < m < |events| && events[g].Greeted? && Brings(events, m, events[g].p)
    requires events[m].hdr.llType == LL_ADV
    requires !events[g].monitor && Live(After(events[..g]).s, events[g].p)
    requires Nameable(After(events[..g]).s, events[g].nid) && LeftAlone(events, g, m, events[g].p)
    ensures HearsOnce(After(events[..m]).s, events[m], events[g].p)
  {
    hide After, Forward, Disciplined, Undisturbed, Nameable;
    var d := events[g].p;
    EventAt(events, g);
    var n := GreetingBinds(After(events[..g]).s, d, events[g].nid);
    StaysSo(events, g, m, d);
    EventAt(events, m);
    AdvertisingServed(After(events[..m]).s, events[m].p, events[m].hdr, events[m].pdu, events[m].air, d);
  }

  /** Over every run: a socket that has greeted as a monitor is shown every frame of another
      socket exactly once, until something ends it. */
  lemma MonitorSeesAll(events: seq<Event>, g: nat, m: nat)
    requires Disciplined(events) && g < m < |events| && events[g].Greeted? && Brings(events, m, events[g].p)
    requires events[g].monitor && Live(After(events[..g]).s, events[g].p)
    requires LeftAlone(events, g, m, events[g].p)
    ensures SeesOnce(After(events[..m]).s, events[m], events[g].p)
  {
    hide After, Forward, Disciplined, Undisturbed;
    var d, e := events[g].p, events[m];
    EventAt(events, g);
    MonitorTaps(After(events[..g]).s, d, events[g].nid);
    StaysSo(events, g, m, d);
    EventAt(events, m);
    var s := After(events[..m]).s;
    if e.hdr.llType == LL_ADV {
      AdvertisingServed(s, e.p, e.hdr, e.pdu, e.air, d);
    } else if e.hdr.llType == LL_DATA {
      DataServed(s, e.p, e.hdr, e.pdu, e.air, d);
    } else {
      OtherServed(s, e.p, e.hdr, e.pdu, e.air, d);
    }
  }
}
