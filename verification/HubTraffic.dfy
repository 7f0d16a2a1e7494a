/** Where frames go: fan-out reaches each listener exactly once whatever fails on the
    way, and data PDUs stay on the virtual point-to-point link of their Access Address. */
module HubTraffic {
  import opened Wire
  import opened HubModel
  import opened HubInvariants
  import opened HubRouting

  // ------------------------------------------------------------------- fan-out

  predicate Selected(loop: Loop, s: HubState, src: nat, d: nat)
    requires d < |s.peers|
  {
    match loop
    case Taps => IsTap(s, src, d)
    case Trunks => IsTrunk(s, src, d)
    case Fan => IsListener(s, src, d)
  }

  /** The one thing that happens for a selected peer, told by the state in which the
      loop starts. */
  function Verdict(loop: Loop, s: HubState, hdr: Hdr, air: Air, d: nat): Entry
    requires d < |s.peers|
  {
    var n := s.peers[d].node;
    match loop
    case Taps => Tapped(d, n, hdr, air.tap(d))
    case Trunks => Attempt(d, n, hdr, air.send(d))
    case Fan =>
      if s.peers[d].bridge then Attempt(d, n, hdr, air.send(d))
      else if air.hear(d).None? then ModelDrop(d, n)
      else Attempt(d, n, hdr.(rssi := air.hear(d).value), air.send(d))
  }

  /** Reference fan-out: the verdicts of the selected peers in slot order, with no
      state threaded through. */
  function Verdicts(loop: Loop, s: HubState, src: nat, hdr: Hdr, air: Air, i: nat): seq<Entry>
    requires i <= |s.peers|
    decreases |s.peers| - i
  {
    if i == |s.peers| then []
    else (if Selected(loop, s, src, i) then [Verdict(loop, s, hdr, air, i)] else [])
         + Verdicts(loop, s, src, hdr, air, i + 1)
  }

  predicate Fails(e: Entry) {
    (e.Tapped? || e.Attempt?) && e.outcome.Failed?
  }

  lemma LoopStepFrame(loop: Loop, s: HubState, src: nat, hdr: Hdr, air: Air, i: nat)
    requires InRange(s) && i < |s.peers|
    ensures var r := LoopStep(loop, s, src, hdr, air, i);
      && r.s.peers == (if Selected(loop, s, src, i) && Fails(Verdict(loop, s, hdr, air, i))
                       then s.peers[i := BLANK_PEER] else s.peers)
      && r.log == if Selected(loop, s, src, i) then [Verdict(loop, s, hdr, air, i)] else []
  {
  }

  lemma VerdictFrame(loop: Loop, s: HubState, t: HubState, src: nat, hdr: Hdr, air: Air, d: nat)
    requires d < |s.peers| && d < |t.peers| && s.peers[d] == t.peers[d]
    ensures Selected(loop, s, src, d) == Selected(loop, t, src, d)
    ensures Verdict(loop, s, hdr, air, d) == Verdict(loop, t, hdr, air, d)
  {
  }

  lemma {:induction false} VerdictsFrame(loop: Loop, s: HubState, t: HubState, src: nat, hdr: Hdr, air: Air, i: nat)
    requires i <= |s.peers| == |t.peers|
    requires forall k :: i <= k < |s.peers| ==> s.peers[k] == t.peers[k]
    ensures Verdicts(loop, s, src, hdr, air, i) == Verdicts(loop, t, src, hdr, air, i)
    decreases |s.peers| - i
  {
    if i < |s.peers| {
      VerdictsFrame(loop, s, t, src, hdr, air, i + 1);
    }
  }

  /** What a loop leaves of a peer: one that it writes to in vain is closed. */
  function Outlived(loop: Loop, s: HubState, src: nat, hdr: Hdr, air: Air, d: nat): Peer
    requires d < |s.peers|
  {
    if Selected(loop, s, src, d) && Fails(Verdict(loop, s, hdr, air, d)) then BLANK_PEER else s.peers[d]
  }

  /** Where a loop that started at slot i in state s stands before slot k: it has done what
      the verdicts of the slots before say, and no other peer has changed. */
  predicate Halfway(loop: Loop, s: HubState, src: nat, hdr: Hdr, air: Air, i: nat, k: nat, r: Run) {
    && i <= k <= |s.peers| && |r.s.peers| == |s.peers|
    && Verdicts(loop, s, src, hdr, air, i) == r.log + Verdicts(loop, s, src, hdr, air, k)
    && forall d :: 0 <= d < |s.peers| ==> r.s.peers[d] == (if i <= d < k then Outlived(loop, s, src, hdr, air, d) else s.peers[d])
  }

  lemma HalfwayNext(loop: Loop, s: HubState, src: nat, hdr: Hdr, air: Air, i: nat, k: nat, r: Run)
    requires InRange(r.s) && k < |r.s.peers| && Halfway(loop, s, src, hdr, air, i, k, r)
    ensures Halfway(loop, s, src, hdr, air, i, k + 1, Then(r, LoopStep(loop, r.s, src, hdr, air, k)))
  {
    LoopStepFrame(loop, r.s, src, hdr, air, k);
    VerdictFrame(loop, s, r.s, src, hdr, air, k);
    VerdictsNext(loop, s, src, hdr, air, k, r.log);
  }

  lemma VerdictsNext(loop: Loop, s: HubState, src: nat, hdr: Hdr, air: Air, k: nat, log: seq<Entry>)
    requires k < |s.peers|
    ensures var head := if Selected(loop, s, src, k) then [Verdict(loop, s, hdr, air, k)] else [];
      log + Verdicts(loop, s, src, hdr, air, k) == (log + head) + Verdicts(loop, s, src, hdr, air, k + 1)
  {
  }

  lemma IterateArrives(loop: Loop, s: HubState, src: nat, hdr: Hdr, air: Air, i: nat)
    requires InRange(s) && i <= |s.peers|
    ensures Halfway(loop, s, src, hdr, air, i, |s.peers|, Iterate(loop, s, src, hdr, air, i))
  {
    hide LoopStep, Iterate, Verdicts, Outlived;
    var p := (k: nat, r: Run) => Halfway(loop, s, src, hdr, air, i, k, r);
    forall r: Run, k: nat | InRange(r.s) && k < |r.s.peers| && p(k, r)
      ensures p(k + 1, Then(r, LoopStep(loop, r.s, src, hdr, air, k)))
    {
      HalfwayNext(loop, s, src, hdr, air, i, k, r);
    }
    assert p(i, Run(s, []));
    IterateThreads(p, loop, s, [], src, hdr, air, i);
    var all := Iterate(loop, s, src, hdr, air, i);
    assert Then(Run(s, []), all) == all;
  }

  /** A loop over the peer table does exactly what the reference says, although peers
      may be closed, and their routes torn down, while it runs. */
  lemma IterateIsVerdicts(loop: Loop, s: HubState, src: nat, hdr: Hdr, air: Air, i: nat)
    requires InRange(s) && i <= |s.peers|
    ensures Iterate(loop, s, src, hdr, air, i).log == Verdicts(loop, s, src, hdr, air, i)
  {
    IterateArrives(loop, s, src, hdr, air, i);
  }

  /** After a loop exactly the selected peers whose write failed are closed; the others
      are as before. */
  lemma IterateCloses(loop: Loop, s: HubState, src: nat, hdr: Hdr, air: Air, i: nat, d: nat)
    requires InRange(s) && i <= |s.peers| && d < |s.peers|
    ensures Iterate(loop, s, src, hdr, air, i).s.peers[d] ==
      if i <= d && Selected(loop, s, src, d) && Fails(Verdict(loop, s, hdr, air, d)) then BLANK_PEER else s.peers[d]
  {
    IterateArrives(loop, s, src, hdr, air, i);
  }

  predicate Concerns(e: Entry, d: nat) {
    match e
    case Observed(_, _, _, _) => false
    case Tapped(dst, _, _, _) => dst == d
    case Attempt(dst, _, _, _) => dst == d
    case ModelDrop(dst, _) => dst == d
    case Hangup(peer, _) => peer == d
  }

  /** The part of a trace that concerns one peer. */
  function About(log: seq<Entry>, d: nat): seq<Entry> {
    if log == [] then []
    else (if Concerns(log[0], d) then [log[0]] else []) + About(log[1..], d)
  }

  lemma {:induction false} AboutSplit(z: seq<Entry>, x: seq<Entry>, y: seq<Entry>, d: nat)
    requires z == x + y
    ensures About(z, d) == About(x, d) + About(y, d)
  {
    hide Concerns;
    if x == [] {
      assert z == y;
    } else {
      assert z[0] == x[0] && z[1..] == x[1..] + y;
      AboutSplit(z[1..], x[1..], y, d);
      Assoc(if Concerns(x[0], d) then [x[0]] else [], About(x[1..], d), About(y, d));
    }
  }

  lemma AboutConcat(x: seq<Entry>, y: seq<Entry>, d: nat)
    ensures About(x + y, d) == About(x, d) + About(y, d)
  {
    AboutSplit(x + y, x, y, d);
  }

  lemma VerdictConcerns(loop: Loop, s: HubState, hdr: Hdr, air: Air, i: nat, d: nat)
    requires i < |s.peers|
    ensures Concerns(Verdict(loop, s, hdr, air, i), d) <==> i == d
  {
  }

  lemma AboutHead(head: seq<Entry>, rest: seq<Entry>, d: nat)
    requires |head| <= 1
    ensures About(head + rest, d) == if head != [] && Concerns(head[0], d) then head + About(rest, d) else About(rest, d)
  {
    AboutConcat(head, rest, d);
    if head != [] {
      assert head[1..] == [];
    }
  }

  lemma {:induction false} LogAbout(loop: Loop, s: HubState, src: nat, hdr: Hdr, air: Air, i: nat, d: nat, log: seq<Entry>)
    requires i <= |s.peers| && d < |s.peers| && log == Verdicts(loop, s, src, hdr, air, i)
    ensures About(log, d) == if i <= d && Selected(loop, s, src, d) then [Verdict(loop, s, hdr, air, d)] else []
    decreases |s.peers| - i
  {
    if i < |s.peers| {
      var head := if Selected(loop, s, src, i) then [Verdict(loop, s, hdr, air, i)] else [];
      var rest := Verdicts(loop, s, src, hdr, air, i + 1);
      LogAbout(loop, s, src, hdr, air, i + 1, d, rest);
      VerdictConcerns(loop, s, hdr, air, i, d);
      AboutHead(head, rest, d);
    }
  }

  lemma VerdictsAbout(loop: Loop, s: HubState, src: nat, hdr: Hdr, air: Air, i: nat, d: nat)
    requires i <= |s.peers| && d < |s.peers|
    ensures About(Verdicts(loop, s, src, hdr, air, i), d) ==
      if i <= d && Selected(loop, s, src, d) then [Verdict(loop, s, hdr, air, d)] else []
  {
    LogAbout(loop, s, src, hdr, air, i, d, Verdicts(loop, s, src, hdr, air, i));
  }

  lemma {:induction false} VerdictsMember(loop: Loop, s: HubState, src: nat, hdr: Hdr, air: Air, i: nat, e: Entry)
    requires i <= |s.peers|
    ensures e in Verdicts(loop, s, src, hdr, air, i) <==>
      exists d :: i <= d < |s.peers| && Selected(loop, s, src, d) && e == Verdict(loop, s, hdr, air, d)
    decreases |s.peers| - i
  {
    if i < |s.peers| {
      VerdictsMember(loop, s, src, hdr, air, i + 1, e);
    }
  }

  // ----------------------------------------------------------- one hello a socket

  /** The two index fields are exact inverses, and only plain sockets are bound. */
  predicate Exact(s: HubState)
    requires InRange(s)
  {
    && (forall n, p :: 0 <= n < |s.nodes| && 0 <= p < |s.peers| && s.nodes[n].peer == p ==>
          s.peers[p].open && s.peers[p].node == n)
    && (forall p :: 0 <= p < |s.peers| && s.peers[p].bridge ==> s.peers[p].node == -1 && !s.peers[p].monitor)
    && (forall p :: 0 <= p < |s.peers| && s.peers[p].monitor ==> s.peers[p].node == -1)
  }

  /** The socket has not greeted yet: it is a plain one, neither bound nor a tap. */
  predicate Ungreeted(s: HubState, p: nat)
    requires p < |s.peers|
  {
    !s.peers[p].bridge && !s.peers[p].monitor && s.peers[p].node == -1
  }

  lemma RebindExactIff(s: HubState, p: nat, n: nat)
    requires Inv(s) && Exact(s) && Live(s, p) && n < |s.nodes|
    ensures Exact(Rebind(s, p, n)) <==>
      !s.peers[p].bridge && !s.peers[p].monitor && (s.peers[p].node == -1 || s.peers[p].node == n)
  {
    var r := Rebind(s, p, n);
    assert r.peers[p] == s.peers[p].(node := n);
    var m := s.peers[p].node;
    if m >= 0 && m != n {
      assert r.nodes[m].peer == p;
    }
  }

  lemma NamedFound(nodes: seq<Node>, nid: NodeId)
    requires NamesDistinct(nodes)
    ensures var named := Named(nodes, nid); var n := FirstNamed(named, nid, 0);
      && (n < 0 <==> FirstNamed(nodes, nid, 0) < 0 && |nodes| >= MAX_NODES)
      && (forall m :: 0 <= m < |nodes| ==> (nodes[m].id == nid <==> m == n))
  {
    var named := Named(nodes, nid);
    if |named| > |nodes| {
      assert named[|nodes|].id == nid;
    }
  }

  lemma NamedExact(s: HubState, nid: NodeId)
    requires InRange(s) && Exact(s)
    ensures Exact(Declare(s, nid))
  {
  }

  /** A greeting keeps the two index fields inverse if and only if the socket is a plain
      one that is unbound or already bound to that very node - or the node table is full
      and the greeting is ignored. A second greeting under another name breaks them. */
  lemma BindExactIff(s: HubState, p: nat, nid: NodeId)
    requires Inv(s) && Exact(s) && Live(s, p)
    ensures Exact(Bind(s, p, nid)) <==>
      || (FirstNamed(s.nodes, nid, 0) < 0 && |s.nodes| >= MAX_NODES)
      || (!s.peers[p].bridge && !s.peers[p].monitor
          && (s.peers[p].node == -1 || s.nodes[s.peers[p].node].id == nid))
  {
    DeclareKeeps(s, nid);
    NamedFound(s.nodes, nid);
    NamedExact(s, nid);
    var t := Declare(s, nid);
    var n := FirstNamed(t.nodes, nid, 0);
    if n >= 0 {
      RebindExactIff(t, p, n);
    }
  }

  /** A second greeting under a new name always breaks the inverse: the socket is then
      bound to the new node while the old one still names it as its peer. */
  lemma SecondHelloBreaks(s: HubState, p: nat, nid: NodeId)
    requires Inv(s) && Exact(s) && Live(s, p) && s.peers[p].node >= 0
    requires FirstNamed(s.nodes, nid, 0) < 0 && |s.nodes| < MAX_NODES
    ensures var r := Bind(s, p, nid); var m := s.peers[p].node;
      r.peers[p].node == |s.nodes| && m < |s.nodes| && r.nodes[m].peer == p && !Exact(r)
  {
    NamedFound(s.nodes, nid);
    var n := FirstNamed(Named(s.nodes, nid), nid, 0);
    assert n == |s.nodes|;
    BindExactIff(s, p, nid);
  }

  /** A node that greets from a new socket while its old one is still up moves over with its
      connections: the later close of the old socket touches neither. */
  lemma ReplacedPeerHarmless(s: HubState, p: nat, nid: NodeId, q: nat)
    requires Inv(s) && Exact(s) && Live(s, p) && Ungreeted(s, p)
    requires q < |s.peers| && q != p && s.peers[q].node >= 0 && s.nodes[s.peers[q].node].id == nid
    ensures var n := s.peers[q].node; var r := Bind(s, p, nid); var t := PeerClose(r, q);
      r.nodes[n].peer == p && t.nodes == r.nodes && t.conns == s.conns
  {
    NamedFound(s.nodes, nid);
  }

  lemma PeerCloseExact(s: HubState, i: nat)
    requires InRange(s) && Exact(s) && i < |s.peers|
    ensures Exact(PeerClose(s, i))
  {
  }

  lemma DeliverExact(s: HubState, tap: bool, dst: nat, hdr: Hdr, outcome: Outcome)
    requires InRange(s) && Exact(s) && dst < |s.peers|
    ensures Exact(Deliver(s, tap, dst, hdr, outcome).s)
  {
    if outcome.Failed? {
      PeerCloseExact(s, dst);
    }
  }

  lemma LoopStepExact(loop: Loop, s: HubState, src: nat, hdr: Hdr, air: Air, i: nat)
    requires InRange(s) && Exact(s) && i < |s.peers|
    ensures Exact(LoopStep(loop, s, src, hdr, air, i).s)
  {
    DeliverExact(s, true, i, hdr, air.tap(i));
    DeliverExact(s, false, i, hdr, air.send(i));
    if air.hear(i).Some? {
      DeliverExact(s, false, i, hdr.(rssi := air.hear(i).value), air.send(i));
    }
  }

  lemma IterateExact(loop: Loop, s: HubState, src: nat, hdr: Hdr, air: Air, i: nat)
    requires InRange(s) && Exact(s) && i <= |s.peers|
    ensures Exact(Iterate(loop, s, src, hdr, air, i).s)
  {
    var p := (k: nat, r: Run) => InRange(r.s) && Exact(r.s);
    forall r: Run, k: nat | InRange(r.s) && k < |r.s.peers| && p(k, r)
      ensures p(k + 1, Then(r, LoopStep(loop, r.s, src, hdr, air, k)))
    {
      LoopStepExact(loop, r.s, src, hdr, air, k);
    }
    IterateThreads(p, loop, s, [], src, hdr, air, i);
  }

  lemma ToEndpointExact(s: HubState, other: int, hdr: Hdr, air: Air)
    requires Inv(s) && Exact(s) && -1 <= other < |s.nodes|
    ensures Exact(ToEndpoint(s, other, hdr, air).s)
  {
    if other >= 0 && s.nodes[other].peer >= 0 {
      var dst := s.nodes[other].peer;
      if air.hear(dst).Some? {
        DeliverExact(s, false, dst, hdr.(rssi := air.hear(dst).value), air.send(dst));
      }
    }
  }

  lemma LearnExact(s: HubState, a: int, addr: Addr)
    requires Inv(s) && Exact(s) && -1 <= a < |s.nodes|
    ensures Exact(Learn(s, a, addr))
  {
    if a >= 0 {
      var heard := s.nodes[a := s.nodes[a].(txPdus := s.nodes[a].txPdus + 1)];
      assert AddressesOwned(heard);
      if addr != ZERO_ADDR {
        AddAddrHoldings(heard, a, addr);
      }
      assert forall m :: 0 <= m < |s.nodes| ==> Learn(s, a, addr).nodes[m].peer == s.nodes[m].peer;
    }
  }

  lemma OverhearExact(s: HubState, src: nat, a: int, hdr: Hdr, air: Air)
    requires Inv(s) && Exact(s) && -1 <= a < |s.nodes|
    ensures Exact(Overhear(s, src, a, hdr, air).s)
  {
    LearnKeeps(s, a, hdr.txAddr);
    LearnExact(s, a, hdr.txAddr);
    IterateExact(Taps, Learn(s, a, hdr.txAddr), src, hdr, air, 0);
  }

  lemma FanOutExact(s: HubState, src: nat, hdr: Hdr, air: Air)
    requires Inv(s) && Exact(s)
    ensures Exact(FanOut(s, src, hdr, air).s)
  {
    IterateExact(Fan, s, src, hdr, air, 0);
  }

  lemma BroadcastExact(s: HubState, src: nat, a: int, hdr: Hdr, pdu: seq<Byte>, air: Air)
    requires Inv(s) && Exact(s) && -1 <= a < |s.nodes|
    ensures Exact(Broadcast(s, src, a, hdr, pdu, air).s)
  {
    SnoopKeeps(s, a, pdu);
    FanOutExact(SnoopAny(s, a, pdu).s, src, hdr, air);
  }

  lemma ForwardExact(s: HubState, src: nat, hdr: Hdr, pdu: seq<Byte>, air: Air)
    requires Inv(s) && Exact(s) && src < |s.peers|
    ensures Exact(Forward(s, src, hdr, pdu, air).s)
  {
    hide Overhear, Broadcast, RouteData, NodeTable, ConnTable, PeerTable, Exact;
    var ttl := Restamp(s.peers[src].bridge, hdr.ttl);
    if ttl.Some? {
      var h := hdr.(ttl := ttl.value);
      var a := s.peers[src].node;
      OverhearKeeps(s, src, a, h, air);
      OverhearExact(s, src, a, h, air);
      var t := Overhear(s, src, a, h, air).s;
      if h.llType == LL_ADV {
        BroadcastExact(t, src, a, h, pdu, air);
      } else if h.llType == LL_DATA {
        RouteDataExact(t, src, a, h, air);
      }
    }
  }

  lemma RouteDataExact(s: HubState, src: nat, a: int, hdr: Hdr, air: Air)
    requires Inv(s) && Exact(s)
    ensures Exact(RouteData(s, src, a, hdr, air).s)
  {
    var c := FindConn(s.conns, hdr.aa);
    if c < 0 {
      IterateExact(Trunks, s, src, hdr, air, 0);
    } else {
      RouteOnExact(s, c, src, a, hdr, air);
    }
  }

  lemma RouteOnExact(s: HubState, c: nat, src: nat, a: int, hdr: Hdr, air: Air)
    requires Inv(s) && Exact(s) && c < |s.conns|
    ensures Exact(RouteOn(s, c, src, a, hdr, air).s)
  {
    CountPduKeeps(s, c);
    var other := Opposite(s.conns[c], a);
    ToEndpointKeeps(CountPdu(s, c), other, hdr, air);
    ToEndpointExact(CountPdu(s, c), other, hdr, air);
    MirrorExact(ToEndpoint(CountPdu(s, c), other, hdr, air).s, src, hdr, air);
  }

  lemma MirrorExact(s: HubState, src: nat, hdr: Hdr, air: Air)
    requires Inv(s) && Exact(s)
    ensures Exact(Mirror(s, src, hdr, air).s)
  {
    IterateExact(Trunks, s, src, hdr, air, 0);
  }

  /** Greetings follow the protocol: plain sockets send one each, bridges none. */
  ghost predicate Disciplined(events: seq<Event>) {
    events == [] ||
    var front := events[..|events| - 1];
    && Disciplined(front)
    && match events[|events| - 1]
       case Greeted(p, _, _) => Live(After(front).s, p) ==> Ungreeted(After(front).s, p)
       case _ => true
  }

  lemma AcceptExact(s: HubState, bridge: bool)
    requires InRange(s) && Exact(s)
    ensures Exact(Accept(s, bridge))
  {
    var i := FirstClosed(s.peers, 0);
    assert forall n :: 0 <= n < |s.nodes| ==> s.nodes[n].peer != i;
  }

  lemma StepExact(s: HubState, e: Event)
    requires Inv(s) && Exact(s)
    requires e.Greeted? && Live(s, e.p) ==> Ungreeted(s, e.p)
    ensures Exact(Step(s, e).s)
  {
    match e
    case Joined(bridge) => AcceptExact(s, bridge);
    case Greeted(p, nid, monitor) => if Live(s, p) && !monitor { BindExactIff(s, p, nid); }
    case Heard(p, hdr, pdu, air) => if Live(s, p) { ForwardExact(s, p, hdr, pdu, air); }
    case Left(p) => if Live(s, p) { PeerCloseExact(s, p); }
    case Declared(nid) => NamedExact(s, nid);
  }

  /** With one greeting a socket, peer and node index fields are exact inverses in every
      reachable state: no two sockets share a node and no stale slot names one. */
  lemma {:induction false} ReachableExact(events: seq<Event>)
    requires Disciplined(events)
    ensures Exact(After(events).s)
  {
    if events != [] {
      ReachableExact(events[..|events| - 1]);
      ReachableInv(events[..|events| - 1]);
      StepExact(After(events[..|events| - 1]).s, events[|events| - 1]);
    }
  }

  /** The peer bound to node n goes away. */
  predicate Departs(e: Entry, n: int) {
    n >= 0 && (e.Hangup? || Fails(e)) && e.node == n
  }

  // ------------------------------------------------------ one broadcast, in full

  lemma OverhearAbout(s: HubState, src: nat, a: int, hdr: Hdr, air: Air, d: nat)
    requires InRange(s) && -1 <= a < |s.nodes| && d < |s.peers|
    ensures var r := Overhear(s, src, a, hdr, air);
      && About(r.log, d) == (if IsTap(s, src, d) then [Verdict(Taps, s, hdr, air, d)] else [])
      && (!IsTap(s, src, d) ==> r.s.peers[d] == s.peers[d])
      && (IsTap(s, src, d) ==> r.s.peers[d] == s.peers[d] || r.s.peers[d] == BLANK_PEER)
  {
    var learned := Learn(s, a, hdr.txAddr);
    assert learned.peers == s.peers;
    IterateIsVerdicts(Taps, learned, src, hdr, air, 0);
    IterateCloses(Taps, learned, src, hdr, air, 0, d);
    VerdictsAbout(Taps, learned, src, hdr, air, 0, d);
  }

  lemma BroadcastAbout(s: HubState, src: nat, a: int, hdr: Hdr, pdu: seq<Byte>, air: Air, d: nat)
    requires InRange(s) && -1 <= a < |s.nodes| && d < |s.peers|
    ensures About(Broadcast(s, src, a, hdr, pdu, air).log, d)
         == if IsListener(s, src, d) then [Verdict(Fan, s, hdr, air, d)] else []
  {
    var snooped := SnoopAny(s, a, pdu);
    SnoopAbout(s, a, pdu, d);
    FanOutAbout(snooped.s, src, hdr, air, d);
    AboutConcat(snooped.log, FanOut(snooped.s, src, hdr, air).log, d);
    VerdictFrame(Fan, s, snooped.s, src, hdr, air, d);
  }

  lemma SnoopAbout(s: HubState, a: int, pdu: seq<Byte>, d: nat)
    requires InRange(s) && -1 <= a < |s.nodes|
    ensures About(SnoopAny(s, a, pdu).log, d) == [] && SnoopAny(s, a, pdu).s.peers == s.peers
  {
    var log := SnoopAny(s, a, pdu).log;
    assert log != [] ==> log[1..] == [];
  }

  lemma FanOutAbout(s: HubState, src: nat, hdr: Hdr, air: Air, d: nat)
    requires InRange(s) && d < |s.peers|
    ensures About(FanOut(s, src, hdr, air).log, d)
         == if IsListener(s, src, d) then [Verdict(Fan, s, hdr, air, d)] else []
  {
    IterateIsVerdicts(Fan, s, src, hdr, air, 0);
    VerdictsAbout(Fan, s, src, hdr, air, 0, d);
  }

  lemma HeardAbout(s: HubState, src: nat, a: int, hdr: Hdr, pdu: seq<Byte>, air: Air, d: nat)
    requires InRange(s) && Exact(s) && -1 <= a < |s.nodes| && d < |s.peers|
    ensures var tapped := Overhear(s, src, a, hdr, air);
      About(tapped.log + Broadcast(tapped.s, src, a, hdr, pdu, air).log, d) ==
        if IsTap(s, src, d) then [Verdict(Taps, s, hdr, air, d)]
        else if IsListener(s, src, d) then [Verdict(Fan, s, hdr, air, d)]
        else []
  {
    var tapped := Overhear(s, src, a, hdr, air);
    OverhearAbout(s, src, a, hdr, air, d);
    BroadcastAbout(tapped.s, src, a, hdr, pdu, air, d);
    AboutConcat(tapped.log, Broadcast(tapped.s, src, a, hdr, pdu, air).log, d);
    if IsTap(s, src, d) {
      assert !IsListener(tapped.s, src, d);
    } else {
      VerdictFrame(Fan, s, tapped.s, src, hdr, air, d);
    }
  }

  /** An advertising frame from a live peer. Every other live peer that is bound to a node
      or is a bridge gets exactly one verdict - delivered, dropped by the model, dropped
      by its backlog, or closed -, every tap one copy, and the sender nothing. */
  lemma AdvertisingOutcomes(s: HubState, src: nat, hdr: Hdr, pdu: seq<Byte>, air: Air, d: nat)
    requires InRange(s) && Exact(s) && Live(s, src) && d < |s.peers|
    requires hdr.llType == LL_ADV && (s.peers[src].bridge ==> hdr.ttl > 0)
    ensures var h := hdr.(ttl := if s.peers[src].bridge then hdr.ttl - 1 else FRESH_TTL);
      About(Forward(s, src, hdr, pdu, air).log, d) ==
        if IsTap(s, src, d) then [Verdict(Taps, s, h, air, d)]
        else if IsListener(s, src, d) then [Verdict(Fan, s, h, air, d)]
        else []
  {
    var h := hdr.(ttl := if s.peers[src].bridge then hdr.ttl - 1 else FRESH_TTL);
    HeardAbout(s, src, s.peers[src].node, h, pdu, air, d);
  }

  // ------------------------------------------------------- one data PDU, in full

  /** Taps are unbound, so serving them touches neither nodes nor routes. */
  lemma TapsQuiet(s: HubState, src: nat, hdr: Hdr, air: Air)
    requires InRange(s) && TapsUnbound(s)
    ensures var r := Iterate(Taps, s, src, hdr, air, 0).s; r.nodes == s.nodes && r.conns == s.conns
  {
    var p := (k: nat, r: Run) => TapsUnbound(r.s) && r.s.nodes == s.nodes && r.s.conns == s.conns;
    forall r: Run, k: nat | InRange(r.s) && k < |r.s.peers| && p(k, r)
      ensures p(k + 1, Then(r, LoopStep(Taps, r.s, src, hdr, air, k)))
    {
      TapQuiet(r.s, src, hdr, air, k);
    }
    IterateThreads(p, Taps, s, [], src, hdr, air, 0);
  }

  predicate TapsUnbound(s: HubState) {
    forall p :: 0 <= p < |s.peers| && s.peers[p].monitor ==> s.peers[p].node == -1
  }

  lemma TapQuiet(s: HubState, src: nat, hdr: Hdr, air: Air, i: nat)
    requires InRange(s) && TapsUnbound(s) && i < |s.peers|
    ensures var r := LoopStep(Taps, s, src, hdr, air, i).s; TapsUnbound(r) && r.nodes == s.nodes && r.conns == s.conns
  {
  }

  lemma OverhearQuiet(s: HubState, src: nat, a: int, hdr: Hdr, air: Air)
    requires Inv(s) && Exact(s) && -1 <= a < |s.nodes|
    ensures var r := Overhear(s, src, a, hdr, air).s;
      r.conns == s.conns && r.nodes == Learn(s, a, hdr.txAddr).nodes
      && forall n :: 0 <= n < |s.nodes| ==> r.nodes[n].peer == s.nodes[n].peer
  {
    TapsQuiet(Learn(s, a, hdr.txAddr), src, hdr, air);
    LearnPeers(s, a, hdr.txAddr);
  }

  lemma LearnPeers(s: HubState, a: int, addr: Addr)
    requires Inv(s) && -1 <= a < |s.nodes|
    ensures forall n :: 0 <= n < |s.nodes| ==> Learn(s, a, addr).nodes[n].peer == s.nodes[n].peer
  {
    if a >= 0 {
      var heard := s.nodes[a := s.nodes[a].(txPdus := s.nodes[a].txPdus + 1)];
      NodeTableSame(s.nodes, heard, s.stats.droppedModel);
      AddAddrKeeps(heard, a, addr, s.stats.droppedModel);
    }
  }

  /** The local node a data PDU from node a (-1: from elsewhere) is due to, or -1. */
  ghost function Target(routes: map<nat, (int, int)>, aa: nat, a: int): int {
    if aa !in routes then -1 else if routes[aa].0 == a then routes[aa].1 else routes[aa].0
  }

  /** The one thing that happens for the endpoint's peer. */
  function EndpointVerdict(n: int, hdr: Hdr, air: Air, d: nat): Entry {
    if air.hear(d).None? then ModelDrop(d, n)
    else Attempt(d, n, hdr.(rssi := air.hear(d).value), air.send(d))
  }

  /** What the endpoint's peer, if it is online here, gets. */
  function EndpointPart(s: HubState, n: int, hdr: Hdr, air: Air): seq<Entry>
    requires InRange(s) && -1 <= n < |s.nodes|
  {
    if n >= 0 && s.nodes[n].peer >= 0 then [EndpointVerdict(n, hdr, air, s.nodes[n].peer)] else []
  }

  lemma ToEndpointLog(s: HubState, other: int, hdr: Hdr, air: Air)
    requires InRange(s) && Exact(s) && -1 <= other < |s.nodes|
    ensures var log := ToEndpoint(s, other, hdr, air).log;
      log == if other < 0 || s.nodes[other].peer < 0 then []
             else
               var dst := s.nodes[other].peer;
               if air.hear(dst).None? then [ModelDrop(dst, other)]
               else [Attempt(dst, other, hdr.(rssi := air.hear(dst).value), air.send(dst))]
  {
  }

  lemma RouteOnLog(s: HubState, c: nat, src: nat, a: int, hdr: Hdr, air: Air)
    requires InRange(s) && Exact(s) && c < |s.conns|
    ensures RouteOn(s, c, src, a, hdr, air).log
         == EndpointPart(s, Opposite(s.conns[c], a), hdr, air) + Verdicts(Trunks, s, src, hdr, air, 0)
  {
    var n := Opposite(s.conns[c], a);
    var t := CountPdu(s, c);
    var near := ToEndpoint(t, n, hdr, air);
    ToEndpointLog(t, n, hdr, air);
    ToEndpointPeers(t, n, hdr, air);
    IterateIsVerdicts(Trunks, near.s, src, hdr, air, 0);
    VerdictsTrunks(s, near.s, src, hdr, air, 0);
  }

  /** The trace of a routed data PDU: the endpoint, if it is online here, then the bridges. */
  lemma RouteDataLog(s: HubState, src: nat, a: int, hdr: Hdr, air: Air)
    requires Inv(s) && Exact(s)
    ensures var n := Target(Routes(s.conns), hdr.aa, a);
      && -1 <= n < |s.nodes|
      && RouteData(s, src, a, hdr, air).log == EndpointPart(s, n, hdr, air) + Verdicts(Trunks, s, src, hdr, air, 0)
  {
    FindConnIsRoute(s.conns, hdr.aa);
    var c := FindConn(s.conns, hdr.aa);
    if c < 0 {
      IterateIsVerdicts(Trunks, s, src, hdr, air, 0);
      assert [] + Verdicts(Trunks, s, src, hdr, air, 0) == Verdicts(Trunks, s, src, hdr, air, 0);
    } else {
      RouteOnLog(s, c, src, a, hdr, air);
    }
  }

  lemma ToEndpointPeers(s: HubState, n: int, hdr: Hdr, air: Air)
    requires InRange(s) && Exact(s) && -1 <= n < |s.nodes|
    ensures var r := ToEndpoint(s, n, hdr, air).s;
      forall d :: 0 <= d < |s.peers| ==>
        r.peers[d] == s.peers[d] || (r.peers[d] == BLANK_PEER && !s.peers[d].bridge)
  {
  }

  /** Closing plain peers does not change which bridges are served. */
  lemma {:induction false} VerdictsTrunks(s: HubState, t: HubState, src: nat, hdr: Hdr, air: Air, i: nat)
    requires |s.peers| == |t.peers| && i <= |s.peers|
    requires forall d :: 0 <= d < |s.peers| ==>
      t.peers[d] == s.peers[d] || (t.peers[d] == BLANK_PEER && !s.peers[d].bridge)
    ensures Verdicts(Trunks, s, src, hdr, air, i) == Verdicts(Trunks, t, src, hdr, air, i)
    decreases |s.peers| - i
  {
    if i < |s.peers| {
      VerdictsTrunks(s, t, src, hdr, air, i + 1);
      assert Selected(Trunks, s, src, i) == Selected(Trunks, t, src, i);
    }
  }

  /** The trace of a whole data frame: the taps, the opposite endpoint if it is online
      here, and the bridges. */
  lemma DataLog(s: HubState, src: nat, a: int, hdr: Hdr, pdu: seq<Byte>, air: Air)
    requires Inv(s) && Exact(s) && -1 <= a < |s.nodes| && hdr.llType == LL_DATA
    ensures var n := Target(Routes(s.conns), hdr.aa, a);
      && -1 <= n < |s.nodes|
      && Handle(s, src, a, hdr, pdu, air).log ==
           Verdicts(Taps, s, src, hdr, air, 0) + (EndpointPart(s, n, hdr, air) + Verdicts(Trunks, s, src, hdr, air, 0))
  {
    var t := Overhear(s, src, a, hdr, air).s;
    OverhearKeeps(s, src, a, hdr, air);
    OverhearExact(s, src, a, hdr, air);
    OverhearQuiet(s, src, a, hdr, air);
    OverhearLog(s, src, a, hdr, air);
    DataRest(s, t, src, a, hdr, air);
  }

  /** The routing of a data PDU, told by the state before the taps were served. */
  lemma DataRest(s: HubState, t: HubState, src: nat, a: int, hdr: Hdr, air: Air)
    requires InRange(s) && Inv(t) && Exact(t) && -1 <= a < |s.nodes|
    requires t.conns == s.conns && |t.nodes| == |s.nodes| && |t.peers| == |s.peers|
    requires forall n :: 0 <= n < |s.nodes| ==> t.nodes[n].peer == s.nodes[n].peer
    requires forall d :: 0 <= d < |s.peers| ==>
      t.peers[d] == s.peers[d] || (t.peers[d] == BLANK_PEER && !s.peers[d].bridge)
    ensures var n := Target(Routes(s.conns), hdr.aa, a);
      && -1 <= n < |s.nodes|
      && RouteData(t, src, a, hdr, air).log == EndpointPart(s, n, hdr, air) + Verdicts(Trunks, s, src, hdr, air, 0)
  {
    RouteDataLog(t, src, a, hdr, air);
    VerdictsTrunks(s, t, src, hdr, air, 0);
  }

  lemma EndpointAbout(s: HubState, n: int, hdr: Hdr, air: Air, d: nat)
    requires InRange(s) && -1 <= n < |s.nodes|
    ensures About(EndpointPart(s, n, hdr, air), d) ==
      if n >= 0 && s.nodes[n].peer == d then [EndpointVerdict(n, hdr, air, d)] else []
  {
    var log := EndpointPart(s, n, hdr, air);
    assert log != [] ==> log[1..] == [];
  }

  /** A data frame from a socket or a bridge. Every tap gets one copy, every other live bridge
      exactly one verdict, the socket of the node that the route leads to exactly one, and
      nobody else anything. */
  lemma DataOutcomes(s: HubState, src: nat, a: int, hdr: Hdr, pdu: seq<Byte>, air: Air, d: nat)
    requires Inv(s) && Exact(s) && -1 <= a < |s.nodes| && hdr.llType == LL_DATA && d < |s.peers|
    ensures var n := Target(Routes(s.conns), hdr.aa, a);
      About(Handle(s, src, a, hdr, pdu, air).log, d) ==
        if IsTap(s, src, d) then [Verdict(Taps, s, hdr, air, d)]
        else if IsTrunk(s, src, d) then [Verdict(Trunks, s, hdr, air, d)]
        else if 0 <= n < |s.nodes| && s.nodes[n].peer == d then [EndpointVerdict(n, hdr, air, d)]
        else []
  {
    hide Handle, Routes, Verdicts;
    var n := Target(Routes(s.conns), hdr.aa, a);
    DataLog(s, src, a, hdr, pdu, air);
    var taps, mid, trunks := Verdicts(Taps, s, src, hdr, air, 0), EndpointPart(s, n, hdr, air), Verdicts(Trunks, s, src, hdr, air, 0);
    AboutConcat(taps, mid + trunks, d);
    AboutConcat(mid, trunks, d);
    VerdictsAbout(Taps, s, src, hdr, air, 0, d);
    VerdictsAbout(Trunks, s, src, hdr, air, 0, d);
    EndpointAbout(s, n, hdr, air, d);
  }

  lemma OverhearLog(s: HubState, src: nat, a: int, hdr: Hdr, air: Air)
    requires InRange(s) && Exact(s) && -1 <= a < |s.nodes|
    ensures var r := Overhear(s, src, a, hdr, air);
      && r.log == Verdicts(Taps, s, src, hdr, air, 0)
      && forall d :: 0 <= d < |s.peers| ==>
           r.s.peers[d] == s.peers[d] || (r.s.peers[d] == BLANK_PEER && !s.peers[d].bridge)
  {
    var learned := Learn(s, a, hdr.txAddr);
    IterateIsVerdicts(Taps, learned, src, hdr, air, 0);
    VerdictsFrame(Taps, s, learned, src, hdr, air, 0);
    forall d | 0 <= d < |s.peers|
      ensures var r := Overhear(s, src, a, hdr, air);
        r.s.peers[d] == s.peers[d] || (r.s.peers[d] == BLANK_PEER && !s.peers[d].bridge)
    {
      IterateCloses(Taps, learned, src, hdr, air, 0, d);
    }
  }

  /** The trace of an advertising frame, whatever fails on the way. */
  lemma BroadcastLog(s: HubState, src: nat, a: int, hdr: Hdr, pdu: seq<Byte>, air: Air)
    requires InRange(s) && Exact(s) && -1 <= a < |s.nodes| && hdr.llType == LL_ADV
    ensures var t := Overhear(s, src, a, hdr, air).s;
      Handle(s, src, a, hdr, pdu, air).log
      == Verdicts(Taps, s, src, hdr, air, 0) + (SnoopAny(t, a, pdu).log + Verdicts(Fan, t, src, hdr, air, 0))
  {
    var t := Overhear(s, src, a, hdr, air).s;
    var u := SnoopAny(t, a, pdu).s;
    OverhearLog(s, src, a, hdr, air);
    IterateIsVerdicts(Fan, u, src, hdr, air, 0);
    VerdictsFrame(Fan, t, u, src, hdr, air, 0);
  }

  /** Some peers have been closed, and that is all. */
  predicate OnlyCloses(s: HubState, t: HubState) {
    && |t.peers| == |s.peers|
    && forall d :: 0 <= d < |s.peers| ==> t.peers[d] == s.peers[d] || t.peers[d] == BLANK_PEER
  }

  lemma LoopCloses(loop: Loop, s: HubState, src: nat, hdr: Hdr, air: Air)
    requires InRange(s)
    ensures OnlyCloses(s, Iterate(loop, s, src, hdr, air, 0).s)
  {
    forall d | 0 <= d < |s.peers|
      ensures var t := Iterate(loop, s, src, hdr, air, 0).s; t.peers[d] == s.peers[d] || t.peers[d] == BLANK_PEER
    {
      IterateCloses(loop, s, src, hdr, air, 0, d);
    }
  }

  lemma DispatchCloses(s: HubState, src: nat, a: int, hdr: Hdr, pdu: seq<Byte>, air: Air)
    requires InRange(s) && -1 <= a < |s.nodes|
    ensures OnlyCloses(s, Dispatch(s, src, a, hdr, pdu, air).s)
  {
    if hdr.llType == LL_ADV {
      LoopCloses(Fan, SnoopAny(s, a, pdu).s, src, hdr, air);
    } else if hdr.llType == LL_DATA {
      var c := FindConn(s.conns, hdr.aa);
      if c < 0 {
        LoopCloses(Trunks, s, src, hdr, air);
      } else {
        var near := ToEndpoint(CountPdu(s, c), Opposite(s.conns[c], a), hdr, air).s;
        assert OnlyCloses(s, near);
        LoopCloses(Trunks, near, src, hdr, air);
      }
    }
  }

  lemma ForwardCloses(s: HubState, src: nat, hdr: Hdr, pdu: seq<Byte>, air: Air)
    requires InRange(s) && src < |s.peers|
    ensures OnlyCloses(s, Forward(s, src, hdr, pdu, air).s)
  {
    var ttl := Restamp(s.peers[src].bridge, hdr.ttl);
    if ttl.Some? {
      var h, a := hdr.(ttl := ttl.value), s.peers[src].node;
      LoopCloses(Taps, Learn(s, a, h.txAddr), src, h, air);
      DispatchCloses(Overhear(s, src, a, h, air).s, src, a, h, pdu, air);
    }
  }

  // -------------------------------------------- every frame, on the tables' own fields

  /** The frame as it goes on: with a fresh TTL from a local socket, one less from a bridge. */
  function Stamped(s: HubState, src: nat, hdr: Hdr): Hdr
    requires src < |s.peers|
  {
    if s.peers[src].bridge && hdr.ttl > 0 then hdr.(ttl := hdr.ttl - 1) else hdr.(ttl := 8)
  }

  /** What an advertising frame means for one other socket, told by the entry of that socket
      alone: a monitor is tapped, a bridge is offered the frame as it is, a socket with a node
      is offered it with the RSSI of the model or loses it to the model, and any other socket
      gets nothing. Whatever happens happens once; a monitor that is one of the others, too,
      gets both, unless the first closes it. */
  lemma AdvertisingServed(s: HubState, src: nat, hdr: Hdr, pdu: seq<Byte>, air: Air, d: nat)
    requires InRange(s) && Live(s, src) && d < |s.peers| && d != src && s.peers[d].open
    requires hdr.llType == LL_ADV && (s.peers[src].bridge ==> hdr.ttl > 0)
    ensures var p, h := s.peers[d], Stamped(s, src, hdr);
      About(Forward(s, src, hdr, pdu, air).log, d) ==
        (if p.monitor then [Tapped(d, p.node, h, air.tap(d))] else [])
        + if p.monitor && air.tap(d).Failed? then []
          else if p.bridge then [Attempt(d, p.node, h, air.send(d))]
          else if p.node >= 0 then
            [match air.hear(d)
             case None => ModelDrop(d, p.node)
             case Some(rssi) => Attempt(d, p.node, h.(rssi := rssi), air.send(d))]
          else []
  {
    hide Overhear, Broadcast;
    var h, a := Stamped(s, src, hdr), s.peers[src].node;
    assert Restamp(s.peers[src].bridge, hdr.ttl) == Some(h.ttl);
    var tapped := Overhear(s, src, a, h, air);
    OverhearAbout(s, src, a, h, air, d);
    TapLeaves(s, src, a, h, air, d);
    BroadcastAbout(tapped.s, src, a, h, pdu, air, d);
    AboutConcat(tapped.log, Broadcast(tapped.s, src, a, h, pdu, air).log, d);
  }

  lemma TapLeaves(s: HubState, src: nat, a: int, hdr: Hdr, air: Air, d: nat)
    requires InRange(s) && -1 <= a < |s.nodes| && d < |s.peers|
    ensures Overhear(s, src, a, hdr, air).s.peers[d] ==
      if IsTap(s, src, d) && air.tap(d).Failed? then BLANK_PEER else s.peers[d]
  {
    IterateCloses(Taps, Learn(s, a, hdr.txAddr), src, hdr, air, 0, d);
  }

  /** What a data frame from node a means for one other socket, told the same way, where the
      route of its Access Address is the pair (x, y). */
  lemma DataServed(s: HubState, src: nat, hdr: Hdr, pdu: seq<Byte>, air: Air, d: nat)
    requires Inv(s) && Exact(s) && Live(s, src) && d < |s.peers| && d != src && s.peers[d].open
    requires hdr.llType == LL_DATA && (s.peers[src].bridge ==> hdr.ttl > 0)
    ensures var p, h, a, routes := s.peers[d], Stamped(s, src, hdr), s.peers[src].node, Routes(s.conns);
      var due := p.node >= 0 && hdr.aa in routes
        && ((routes[hdr.aa].0 == a && routes[hdr.aa].1 == p.node) || (routes[hdr.aa].0 != a && routes[hdr.aa].0 == p.node));
      About(Forward(s, src, hdr, pdu, air).log, d) ==
        if p.monitor then [Tapped(d, -1, h, air.tap(d))]
        else if p.bridge then [Attempt(d, -1, h, air.send(d))]
        else if due then
          [match air.hear(d)
           case None => ModelDrop(d, p.node)
           case Some(rssi) => Attempt(d, p.node, h.(rssi := rssi), air.send(d))]
        else []
  {
    hide Handle, Routes;
    var h, a := Stamped(s, src, hdr), s.peers[src].node;
    assert Restamp(s.peers[src].bridge, hdr.ttl) == Some(h.ttl);
    DataOutcomes(s, src, a, h, pdu, air, d);
    NodeOfPeer(s, Target(Routes(s.conns), hdr.aa, a), d);
  }

  /** A live socket is the socket of node n exactly if its entry says so. */
  lemma NodeOfPeer(s: HubState, n: int, d: nat)
    requires Inv(s) && Exact(s) && d < |s.peers| && s.peers[d].open
    ensures 0 <= n < |s.nodes| && s.nodes[n].peer == d <==> n >= 0 && s.peers[d].node == n
  {
  }

  /** A frame of another class is shown to the monitors only. */
  lemma OtherServed(s: HubState, src: nat, hdr: Hdr, pdu: seq<Byte>, air: Air, d: nat)
    requires InRange(s) && Exact(s) && Live(s, src) && d < |s.peers| && d != src && s.peers[d].open
    requires hdr.llType != LL_ADV && hdr.llType != LL_DATA && (s.peers[src].bridge ==> hdr.ttl > 0)
    ensures About(Forward(s, src, hdr, pdu, air).log, d) ==
      if s.peers[d].monitor then [Tapped(d, -1, Stamped(s, src, hdr), air.tap(d))] else []
  {
    hide Overhear;
    var h, a := Stamped(s, src, hdr), s.peers[src].node;
    assert Restamp(s.peers[src].bridge, hdr.ttl) == Some(h.ttl);
    OverhearAbout(s, src, a, h, air, d);
    assert Handle(s, src, a, h, pdu, air).log == Overhear(s, src, a, h, air).log;
  }

  /** A frame whose TTL has run out is lost, and nothing happens. */
  lemma ExpiredLost(s: HubState, src: nat, hdr: Hdr, pdu: seq<Byte>, air: Air)
    requires InRange(s) && Live(s, src) && s.peers[src].bridge && hdr.ttl == 0
    ensures Forward(s, src, hdr, pdu, air) == Run(s, [])
  {
  }

  // ------------------------------------------------- the socket a frame came from

  lemma EndpointCloses(s: HubState, n: int, hdr: Hdr, air: Air, d: nat)
    requires InRange(s) && Exact(s) && -1 <= n < |s.nodes| && d < |s.peers|
    ensures ToEndpoint(s, n, hdr, air).s.peers[d] ==
      if n >= 0 && s.nodes[n].peer == d && air.hear(d).Some? && air.send(d).Failed? then BLANK_PEER else s.peers[d]
  {
  }

  lemma DataKeepsSender(s: HubState, src: nat, a: int, hdr: Hdr, air: Air)
    requires Inv(s) && Exact(s) && -1 <= a < |s.nodes| && src < |s.peers|
    ensures var n := Target(Routes(s.conns), hdr.aa, a);
      RouteData(s, src, a, hdr, air).s.peers[src] ==
        if 0 <= n < |s.nodes| && s.nodes[n].peer == src && air.hear(src).Some? && air.send(src).Failed?
        then BLANK_PEER else s.peers[src]
  {
    hide Routes;
    FindConnIsRoute(s.conns, hdr.aa);
    var c := FindConn(s.conns, hdr.aa);
    if c < 0 {
      IterateCloses(Trunks, s, src, hdr, air, 0, src);
    } else {
      var t, n := CountPdu(s, c), Opposite(s.conns[c], a);
      EndpointCloses(t, n, hdr, air, src);
      IterateCloses(Trunks, ToEndpoint(t, n, hdr, air).s, src, hdr, air, 0, src);
    }
  }

  lemma BroadcastKeepsSender(s: HubState, src: nat, a: int, hdr: Hdr, pdu: seq<Byte>, air: Air)
    requires InRange(s) && -1 <= a < |s.nodes| && src < |s.peers|
    ensures Broadcast(s, src, a, hdr, pdu, air).s.peers[src] == s.peers[src]
  {
    IterateCloses(Fan, SnoopAny(s, a, pdu).s, src, hdr, air, 0, src);
  }

  /** The route leads from node a back to node a, and the write there fails. */
  ghost predicate Backfires(s: HubState, src: nat, hdr: Hdr, air: Air)
    requires InRange(s) && src < |s.peers|
  {
    var a, routes := s.peers[src].node, Routes(s.conns);
    && hdr.llType == LL_DATA && a >= 0 && hdr.aa in routes && routes[hdr.aa] == (a, a)
    && air.hear(src).Some? && air.send(src).Failed?
  }

  /** The hub goes on reading from a socket after it has handled a frame from it. The frame
      closes that very socket if and only if it is a data PDU of a connection of the node
      with itself, and the write to it fails. */
  lemma SenderLostIff(s: HubState, src: nat, hdr: Hdr, pdu: seq<Byte>, air: Air)
    requires Inv(s) && Exact(s) && Live(s, src)
    ensures !Forward(s, src, hdr, pdu, air).s.peers[src].open <==> Backfires(s, src, hdr, air)
  {
    hide Routes, Overhear, RouteData, Broadcast;
    var a := s.peers[src].node;
    var ttl := Restamp(s.peers[src].bridge, hdr.ttl);
    if ttl.Some? {
      var h := hdr.(ttl := ttl.value);
      var t := Overhear(s, src, a, h, air).s;
      OverhearAbout(s, src, a, h, air, src);
      assert t.peers[src] == s.peers[src];
      if h.llType == LL_ADV {
        BroadcastKeepsSender(t, src, a, h, pdu, air);
      } else if h.llType == LL_DATA {
        OverhearKeeps(s, src, a, h, air);
        OverhearExact(s, src, a, h, air);
        OverhearQuiet(s, src, a, h, air);
        DataKeepsSender(t, src, a, h, air);
      }
    }
  }
}
