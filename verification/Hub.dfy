/** The medium hub in the form it runs in: fixed tables of nodes, peers and connections,
    searched by loops and updated in place. Each method is proved to do what the
    corresponding function of HubModel says; what that means is proved about those
    functions in HubInvariants, HubRouting, HubTraffic and Network. */
module Hub {
  import opened Wire
  import opened HubModel
  import opened HubInvariants

  /** The rest of a loop, from slot i on, ends in state `end` with trace `total`. */
  ghost predicate Ahead(loop: Loop, s: HubState, log: seq<Entry>, src: nat, hdr: Hdr, air: Air, i: nat,
                        end: HubState, total: seq<Entry>)
    requires InRange(s)
  {
    && i <= |s.peers|
    && Iterate(loop, s, src, hdr, air, i).s == end
    && log + Iterate(loop, s, src, hdr, air, i).log == total
  }

  lemma AheadStep(loop: Loop, s: HubState, log: seq<Entry>, src: nat, hdr: Hdr, air: Air, i: nat,
                  end: HubState, total: seq<Entry>)
    requires InRange(s) && i < |s.peers|
    requires Ahead(loop, s, log, src, hdr, air, i, end, total)
    ensures var step := LoopStep(loop, s, src, hdr, air, i);
      Ahead(loop, step.s, log + step.log, src, hdr, air, i + 1, end, total)
  {
    var step := LoopStep(loop, s, src, hdr, air, i);
    var rest := Iterate(loop, step.s, src, hdr, air, i + 1);
    assert log + (step.log + rest.log) == (log + step.log) + rest.log;
  }

  class MediumHub {
    const nodes: array<Node>
    const peers: array<Peer>
    const conns: array<Conn>
    var numNodes: nat
    var numPeers: nat
    var numConns: nat
    var stats: Stats
    /** Everything observable the hub has done. */
    ghost var log: seq<Entry>

    ghost predicate Fits()
      reads this
    {
      && nodes.Length == MAX_NODES && peers.Length == MAX_PEERS && conns.Length == MAX_CONNS
      && numNodes <= MAX_NODES && numPeers <= MAX_PEERS && numConns <= MAX_CONNS
    }

    /** The tables as values. */
    ghost function Model(): (s: HubState)
      requires Fits()
      reads this, nodes, peers, conns
    {
      HubState(nodes[..numNodes], peers[..numPeers], conns[..numConns], stats)
    }

    ghost predicate Valid()
      reads this, nodes, peers, conns
    {
      Fits() && InRange(Model())
    }

    constructor ()
      ensures Valid() && Model() == EMPTY_HUB && log == []
      ensures fresh(nodes) && fresh(peers) && fresh(conns)
    {
      nodes := new Node[MAX_NODES](_ => Node(0, [], -1, 0, 0, 0));
      peers := new Peer[MAX_PEERS](_ => BLANK_PEER);
      conns := new Conn[MAX_CONNS](_ => Conn(false, 0, -1, -1, 0));
      numNodes, numPeers, numConns := 0, 0, 0;
      stats := Stats(0, 0, 0, 0, 0, 0);
      log := [];
    }

    // -------------------------------------------------------------- node table

    method FindNodeByAddr(addr: Addr) returns (r: int)
      requires Fits()
      ensures r == FindByAddr(Model().nodes, addr)
    {
      if addr == ZERO_ADDR { return -1; }
      ghost var table := nodes[..numNodes];
      var i := 0;
      while i < numNodes
        invariant 0 <= i <= numNodes
        invariant FirstHolder(table, addr, i) == FirstHolder(table, addr, 0)
      {
        var j := 0;
        while j < |nodes[i].addrs|
          invariant 0 <= j <= |nodes[i].addrs|
          invariant addr !in nodes[i].addrs[..j]
        {
          if nodes[i].addrs[j] == addr {
            assert table[i] == nodes[i];
            return i;
          }
          j := j + 1;
        }
        assert nodes[i].addrs[..j] == table[i].addrs;
        i := i + 1;
      }
      return -1;
    }

    method FindNode(nid: NodeId) returns (r: int)
      requires Fits()
      ensures r == FirstNamed(Model().nodes, nid, 0)
    {
      ghost var table := nodes[..numNodes];
      var i := 0;
      while i < numNodes
        invariant 0 <= i <= numNodes
        invariant FirstNamed(table, nid, i) == FirstNamed(table, nid, 0)
      {
        assert table[i] == nodes[i];
        if nodes[i].id == nid { return i; }
        i := i + 1;
      }
      return -1;
    }

    /** The inner swap-delete loop on one node's addresses. */
    method RemoveAddr(i: nat, addr: Addr)
      requires Fits() && i < numNodes
      modifies nodes
      ensures nodes[..] == old(nodes[..])[i := old(nodes[i]).(addrs := Sweep(old(nodes[i]).addrs, addr, 0))]
    {
      var j := 0;
      while j < |nodes[i].addrs|
        invariant 0 <= j <= |nodes[i].addrs|
        invariant nodes[..] == old(nodes[..])[i := nodes[i]]
        invariant nodes[i] == old(nodes[i]).(addrs := nodes[i].addrs)
        invariant Sweep(nodes[i].addrs, addr, j) == Sweep(old(nodes[i]).addrs, addr, 0)
        decreases |nodes[i].addrs| - j
      {
        var addrs := nodes[i].addrs;
        if addrs[j] == addr {
          nodes[i] := nodes[i].(addrs := addrs[j := addrs[|addrs| - 1]][..|addrs| - 1]);
        } else {
          j := j + 1;
        }
      }
    }

    method NodeAddAddr(n: nat, addr: Addr)
      requires Fits() && n < numNodes
      modifies nodes
      ensures Model() == old(Model()).(nodes := AddAddr(old(Model()).nodes, n, addr))
    {
      if addr == ZERO_ADDR { return; }
      ghost var table := nodes[..numNodes];
      var j := 0;
      while j < |nodes[n].addrs|
        invariant 0 <= j <= |nodes[n].addrs|
        invariant addr !in nodes[n].addrs[..j]
      {
        if nodes[n].addrs[j] == addr { return; }
        j := j + 1;
      }
      assert nodes[n].addrs[..j] == nodes[n].addrs;
      var i := 0;
      while i < numNodes
        invariant 0 <= i <= numNodes
        invariant forall k :: 0 <= k < numNodes ==>
          nodes[k] == if k < i then SweepOthers(table, n, addr)[k] else table[k]
      {
        if i != n {
          RemoveAddr(i, addr);
        }
        i := i + 1;
      }
      assert nodes[..numNodes] == SweepOthers(table, n, addr);
      if |nodes[n].addrs| < MAX_ADDRS_PER_NODE {
        nodes[n] := nodes[n].(addrs := nodes[n].addrs + [addr]);
        assert nodes[..numNodes] == SweepOthers(table, n, addr)[n := nodes[n]];
      }
    }

    // -------------------------------------------------------- connection table

    method FindConnection(aa: nat) returns (r: int)
      requires Fits()
      ensures r == FindConn(Model().conns, aa)
    {
      if Reserved(aa) { return -1; }
      ghost var table := conns[..numConns];
      var i := 0;
      while i < numConns
        invariant 0 <= i <= numConns
        invariant FirstConn(table, aa, i) == FirstConn(table, aa, 0)
      {
        assert table[i] == conns[i];
        if conns[i].active && conns[i].aa == aa { return i; }
        i := i + 1;
      }
      return -1;
    }

    /** Finds or makes room for a connection and marks it active; -1 when the table is full. */
    method ConnAlloc(aa: nat) returns (r: int)
      requires Fits()
      modifies this`numConns, conns
      ensures Fits() && numNodes == old(numNodes) && numPeers == old(numPeers)
      ensures var slot := AllocSlot(old(Model()).conns);
        && (slot.None? ==> r == -1 && Model() == old(Model()))
        && (slot.Some? ==> r == slot.value && r < numConns)
        && (slot.Some? ==> Model() == old(Model()).(
              conns := PutConn(old(Model()).conns, slot.value, Conn(true, aa, -1, -1, 0))))
    {
      ghost var table := conns[..numConns];
      var i := 0;
      while i < numConns
        invariant 0 <= i <= numConns
        invariant FirstFree(table, i) == FirstFree(table, 0)
      {
        assert table[i] == conns[i];
        if !conns[i].active {
          conns[i] := Conn(true, aa, -1, -1, 0);
          assert conns[..numConns] == table[i := conns[i]];
          return i;
        }
        i := i + 1;
      }
      if numConns >= MAX_CONNS { return -1; }
      conns[numConns] := Conn(true, aa, -1, -1, 0);
      numConns := numConns + 1;
      assert conns[..numConns] == table + [conns[numConns - 1]];
      return numConns - 1;
    }

    method ObserveConnectInd(a: int, pdu: seq<Byte>)
      requires Fits()
      modifies this, conns
      ensures Fits()
      ensures Model() == Snoop(old(Model()), a, pdu).s
      ensures log == old(log) + Snoop(old(Model()), a, pdu).log
    {
      hide Le, FindByAddr, FindConn, AllocSlot;
      if |pdu| < 18 { return; }
      var inita, adva, aa := Le(pdu[2..8]), Le(pdu[8..14]), Le(pdu[14..18]);
      if Reserved(aa) { return; }
      ghost var table := conns[..numConns];
      var c := FindConnection(aa);
      if c < 0 {
        c := ConnAlloc(aa);
        if c < 0 { return; }
        stats := stats.(connsOpened := stats.connsOpened + 1);
      }
      var b := FindNodeByAddr(adva);
      ghost var before := conns[..numConns];
      conns[c] := conns[c].(a := a, b := b);
      assert conns[..numConns] == before[c := conns[c]];
      log := log + [Observed(aa, a, adva, b)];
    }

    method ConnsDropNode(n: int)
      requires Fits()
      modifies this`stats, conns
      ensures Model() == old(Model()).(
        conns := DropNode(old(Model()).conns, n),
        stats := old(stats).(connsClosed := old(stats).connsClosed + CountTouching(old(Model()).conns, n)))
    {
      ghost var table := conns[..numConns];
      var i := 0;
      assert table[..0] == [];
      while i < numConns
        invariant 0 <= i <= numConns
        invariant forall k :: 0 <= k < numConns ==> conns[k] == if k < i then DropNode(table, n)[k] else table[k]
        invariant stats == old(stats).(connsClosed := old(stats).connsClosed + CountTouching(table[..i], n))
      {
        assert table[..i + 1][..i] == table[..i];
        if conns[i].active && (conns[i].a == n || conns[i].b == n) {
          conns[i] := conns[i].(active := false);
          stats := stats.(connsClosed := stats.connsClosed + 1);
        }
        i := i + 1;
      }
      assert table[..numConns] == table;
      assert conns[..numConns] == DropNode(table, n);
    }

    // -------------------------------------------------------------- peer table

    method ClosePeer(i: nat)
      requires Valid() && i < numPeers
      modifies this`stats, nodes, peers, conns
      ensures Valid() && Model() == PeerClose(old(Model()), i)
    {
      if !peers[i].open { return; }
      ghost var s := Model();
      assert s.peers[i] == peers[i];
      var n := peers[i].node;
      if n >= 0 {
        assert s.nodes[n] == nodes[n];
        if nodes[n].peer == i {
          nodes[n] := nodes[n].(peer := -1);
          assert nodes[..numNodes] == s.nodes[n := nodes[n]];
        }
        ConnsDropNode(n);
      }
      peers[i] := BLANK_PEER;
      assert peers[..numPeers] == s.peers[i := BLANK_PEER];
      assert Model() == PeerClose(s, i);
    }

    /** A peer slot for an accepted socket; -1 when all are taken. */
    method PeerAlloc(bridge: bool) returns (r: int)
      requires Valid()
      modifies this`numPeers, peers
      ensures Valid() && Model() == Accept(old(Model()), bridge)
      ensures var i := FirstClosed(old(Model()).peers, 0); r == if i < MAX_PEERS then i else -1
      ensures r >= 0 ==> r < numPeers && peers[r] == Peer(true, bridge, false, -1)
    {
      ghost var s := Model();
      var i := 0;
      while i < numPeers
        invariant 0 <= i <= numPeers
        invariant FirstClosed(s.peers, i) == FirstClosed(s.peers, 0)
      {
        assert s.peers[i] == peers[i];
        if !peers[i].open { break; }
        i := i + 1;
      }
      assert i == FirstClosed(s.peers, 0);
      if i == numPeers {
        if numPeers >= MAX_PEERS { return -1; }
        numPeers := numPeers + 1;
      }
      peers[i] := Peer(true, bridge, false, -1);
      assert peers[..numPeers] == if i < |s.peers| then s.peers[i := peers[i]] else s.peers + [peers[i]];
      assert Model() == Accept(s, bridge);
      return i;
    }

    method BindPeerNode(p: nat, nid: NodeId)
      requires Valid() && p < numPeers
      modifies this`numNodes, nodes, peers
      ensures Valid() && Model() == Bind(old(Model()), p, nid)
    {
      var n := FindOrAddNode(nid);
      if n >= 0 { RebindPeer(p, n); }
    }

    /** The node of that name, added to the table if it is new and there is room. */
    method FindOrAddNode(nid: NodeId) returns (n: int)
      requires Valid()
      modifies this`numNodes, nodes
      ensures Valid() && numPeers == old(numPeers)
      ensures n == FirstNamed(Declare(old(Model()), nid).nodes, nid, 0)
      ensures Model() == if n >= 0 then Declare(old(Model()), nid) else old(Model())
    {
      ghost var s := Model();
      n := FindNode(nid);
      if n < 0 {
        if numNodes >= MAX_NODES { return; }
        n := numNodes;
        nodes[n] := Node(nid, [], -1, 0, 0, 0);
        numNodes := numNodes + 1;
        assert nodes[..numNodes] == s.nodes + [nodes[n]];
        assert Model() == Declare(s, nid);
      }
    }

    method RebindPeer(p: nat, n: nat)
      requires Valid() && p < numPeers && n < numNodes
      modifies nodes, peers
      ensures Valid() && Model() == Rebind(old(Model()), p, n)
    {
      ghost var t := Model();
      var was := nodes[n].peer;
      if was >= 0 && was != p {
        peers[was] := peers[was].(node := -1);
      }
      nodes[n] := nodes[n].(peer := p);
      peers[p] := peers[p].(node := n);
      assert nodes[..numNodes] == t.nodes[n := nodes[n]];
      assert peers[..numPeers] == Rebind(t, p, n).peers;
      assert Model() == Rebind(t, p, n);
    }

    method HandleHello(p: nat, nid: NodeId, monitor: bool)
      requires Valid() && p < numPeers
      modifies this`numNodes, nodes, peers
      ensures Valid() && Model() == Hello(old(Model()), p, nid, monitor)
    {
      ghost var s := Model();
      if monitor {
        peers[p] := peers[p].(monitor := true);
        assert peers[..numPeers] == s.peers[p := peers[p]];
        assert Model() == Hello(s, p, nid, monitor);
      } else {
        BindPeerNode(p, nid);
      }
    }

    // ----------------------------------------------------------------- fan-out

    /** Sends one copy. How the write ends is up to the socket. */
    method DeliverToPeer(tap: bool, dst: nat, hdr: Hdr, outcome: Outcome)
      requires Valid() && dst < numPeers
      modifies this`stats, this`log, nodes, peers, conns
      ensures Valid() && Model() == Deliver(old(Model()), tap, dst, hdr, outcome).s
      ensures log == old(log) + Deliver(old(Model()), tap, dst, hdr, outcome).log
    {
      ghost var s := Model();
      assert s.peers[dst] == peers[dst];
      if !peers[dst].open { return; }
      var n := peers[dst].node;
      log := log + [if tap then Tapped(dst, n, hdr, outcome) else Attempt(dst, n, hdr, outcome)];
      match outcome {
        case Sent =>
          if n >= 0 {
            nodes[n] := nodes[n].(rxPdus := nodes[n].rxPdus + 1);
            assert nodes[..numNodes] == s.nodes[n := nodes[n]];
          }
        case Backlogged =>
          stats := stats.(droppedBacklog := stats.droppedBacklog + 1);
        case Failed =>
          ClosePeer(dst);
      }
      assert Model() == Deliver(s, tap, dst, hdr, outcome).s;
    }

    method DropByModel(dst: nat, n: nat)
      requires Valid() && n < numNodes
      modifies this`stats, this`log, nodes
      ensures Valid() && Model() == Attenuate(old(Model()), dst, n).s
      ensures log == old(log) + Attenuate(old(Model()), dst, n).log
    {
      ghost var s := Model();
      nodes[n] := nodes[n].(rxDropped := nodes[n].rxDropped + 1);
      assert nodes[..numNodes] == s.nodes[n := nodes[n]];
      stats := stats.(droppedModel := stats.droppedModel + 1);
      log := log + [ModelDrop(dst, n)];
      assert Model() == Attenuate(s, dst, n).s;
    }

    /** What a loop over the peer table does for one slot. */
    method VisitPeer(loop: Loop, src: nat, hdr: Hdr, air: Air, i: nat)
      requires Valid() && i < numPeers
      modifies this`stats, this`log, nodes, peers, conns
      ensures Valid()
      ensures Model() == LoopStep(loop, old(Model()), src, hdr, air, i).s
      ensures log == old(log) + LoopStep(loop, old(Model()), src, hdr, air, i).log
    {
      assert Model().peers[i] == peers[i];
      if i == src || !peers[i].open { return; }
      match loop {
        case Taps =>
          if peers[i].monitor { DeliverToPeer(true, i, hdr, air.tap(i)); }
        case Trunks =>
          if peers[i].bridge { DeliverToPeer(false, i, hdr, air.send(i)); }
        case Fan =>
          if peers[i].node < 0 && !peers[i].bridge { return; }
          if peers[i].bridge {
            DeliverToPeer(false, i, hdr, air.send(i));
          } else {
            match air.hear(i) {
              case None => DropByModel(i, peers[i].node);
              case Some(rssi) => DeliverToPeer(false, i, hdr.(rssi := rssi), air.send(i));
            }
          }
      }
    }

    /** The hub's loops over the peer table: taps, bridges, or every listener. */
    method VisitPeers(loop: Loop, src: nat, hdr: Hdr, air: Air)
      requires Valid()
      modifies this`stats, this`log, nodes, peers, conns
      ensures Valid()
      ensures Model() == Iterate(loop, old(Model()), src, hdr, air, 0).s
      ensures log == old(log) + Iterate(loop, old(Model()), src, hdr, air, 0).log
    {
      hide LoopStep;
      ghost var whole := Iterate(loop, Model(), src, hdr, air, 0);
      ghost var total := log + whole.log;
      var i := 0;
      while i < numPeers
        invariant 0 <= i <= numPeers && Valid()
        invariant Ahead(loop, Model(), log, src, hdr, air, i, whole.s, total)
      {
        AheadStep(loop, Model(), log, src, hdr, air, i, whole.s, total);
        VisitPeer(loop, src, hdr, air, i);
        i := i + 1;
      }
    }

    /** Counts a data PDU on connection c and picks the endpoint opposite to its sender. */
    method CountAndPick(c: nat, a: int) returns (other: int)
      requires Valid() && c < numConns
      modifies conns
      ensures Valid() && Model() == CountPdu(old(Model()), c)
      ensures other == Opposite(old(conns[c]), a) && -1 <= other < numNodes
    {
      ghost var s := Model();
      assert s.conns[c] == conns[c];
      if a >= 0 && conns[c].a == a { other := conns[c].b; }
      else if a >= 0 && conns[c].b == a { other := conns[c].a; }
      else { other := if conns[c].a == a then conns[c].b else conns[c].a; }
      conns[c] := conns[c].(pdus := conns[c].pdus + 1);
      assert conns[..numConns] == s.conns[c := conns[c]];
      assert Model() == CountPdu(s, c);
    }

    method MirrorToBridges(src: nat, hdr: Hdr, air: Air)
      requires Valid()
      modifies this`stats, this`log, nodes, peers, conns
      ensures Valid()
      ensures Model() == Mirror(old(Model()), src, hdr, air).s
      ensures log == old(log) + Mirror(old(Model()), src, hdr, air).log
    {
      ghost var far := Iterate(Trunks, Model(), src, hdr, air, 0);
      VisitPeers(Trunks, src, hdr, air);
      assert Model() == far.s;
      stats := stats.(dataForwarded := stats.dataForwarded + 1);
      assert Model() == far.s.(stats := stats);
    }

    method ForwardOn(c: nat, src: nat, a: int, hdr: Hdr, air: Air)
      requires Valid() && c < numConns
      modifies this`stats, this`log, nodes, peers, conns
      ensures Valid()
      ensures Model() == RouteOn(old(Model()), c, src, a, hdr, air).s
      ensures log == old(log) + RouteOn(old(Model()), c, src, a, hdr, air).log
    {
      ghost var s, before := Model(), log;
      assert s.conns[c] == conns[c];
      var other := CountAndPick(c, a);
      SendToEndpoint(other, hdr, air);
      ghost var near := ToEndpoint(CountPdu(s, c), other, hdr, air);
      MirrorToBridges(src, hdr, air);
      Assoc(before, near.log, Mirror(near.s, src, hdr, air).log);
    }

    method ForwardData(src: nat, a: int, hdr: Hdr, air: Air)
      requires Valid()
      modifies this`stats, this`log, nodes, peers, conns
      ensures Valid()
      ensures Model() == RouteData(old(Model()), src, a, hdr, air).s
      ensures log == old(log) + RouteData(old(Model()), src, a, hdr, air).log
    {
      var c := FindConnection(hdr.aa);
      if c < 0 {
        VisitPeers(Trunks, src, hdr, air);
      } else {
        ForwardOn(c, src, a, hdr, air);
      }
    }

    method SendToEndpoint(other: int, hdr: Hdr, air: Air)
      requires Valid() && -1 <= other < numNodes
      modifies this`stats, this`log, nodes, peers, conns
      ensures Valid()
      ensures Model() == ToEndpoint(old(Model()), other, hdr, air).s
      ensures log == old(log) + ToEndpoint(old(Model()), other, hdr, air).log
    {
      ghost var s := Model();
      if other >= 0 {
        assert s.nodes[other] == nodes[other];
        if nodes[other].peer >= 0 {
          var dst := nodes[other].peer;
          match air.hear(dst) {
            case None => DropByModel(dst, other);
            case Some(rssi) => DeliverToPeer(false, dst, hdr.(rssi := rssi), air.send(dst));
          }
        }
      }
    }

    method NoteSender(a: int, addr: Addr)
      requires Valid() && -1 <= a < numNodes
      modifies nodes
      ensures Valid() && Model() == Learn(old(Model()), a, addr)
    {
      if a >= 0 {
        ghost var s := Model();
        nodes[a] := nodes[a].(txPdus := nodes[a].txPdus + 1);
        assert nodes[..numNodes] == s.nodes[a := nodes[a]];
        NodeAddAddr(a, addr);
        assert Model() == Learn(s, a, addr);
      }
    }

    method SnoopFrame(a: int, pdu: seq<Byte>)
      requires Valid() && -1 <= a < numNodes
      modifies this, conns
      ensures Valid()
      ensures Model() == SnoopAny(old(Model()), a, pdu).s
      ensures log == old(log) + SnoopAny(old(Model()), a, pdu).log
    {
      if |pdu| >= 2 && pdu[0] % 16 == CONNECT_IND {
        ObserveConnectInd(a, pdu);
      }
    }

    method FanOutFrame(src: nat, hdr: Hdr, air: Air)
      requires Valid()
      modifies this`stats, this`log, nodes, peers, conns
      ensures Valid()
      ensures Model() == FanOut(old(Model()), src, hdr, air).s
      ensures log == old(log) + FanOut(old(Model()), src, hdr, air).log
    {
      ghost var fanned := Iterate(Fan, Model(), src, hdr, air, 0);
      VisitPeers(Fan, src, hdr, air);
      assert Model() == fanned.s;
      stats := stats.(advForwarded := stats.advForwarded + 1);
      assert Model() == fanned.s.(stats := stats);
    }

    method ForwardAdvertising(src: nat, a: int, hdr: Hdr, pdu: seq<Byte>, air: Air)
      requires Valid() && -1 <= a < numNodes
      modifies this, nodes, peers, conns
      ensures Valid()
      ensures Model() == Broadcast(old(Model()), src, a, hdr, pdu, air).s
      ensures log == old(log) + Broadcast(old(Model()), src, a, hdr, pdu, air).log
    {
      ghost var before := log;
      ghost var snooped := SnoopAny(Model(), a, pdu);
      SnoopFrame(a, pdu);
      FanOutFrame(src, hdr, air);
      Assoc(before, snooped.log, FanOut(snooped.s, src, hdr, air).log);
    }

    method OverhearFrame(src: nat, a: int, hdr: Hdr, air: Air)
      requires Valid() && -1 <= a < numNodes
      modifies this`stats, this`log, nodes, peers, conns
      ensures Valid()
      ensures Model() == Overhear(old(Model()), src, a, hdr, air).s
      ensures log == old(log) + Overhear(old(Model()), src, a, hdr, air).log
    {
      NoteSender(a, hdr.txAddr);
      VisitPeers(Taps, src, hdr, air);
    }

    /** The part of forwarding that depends on the PDU class. */
    method DispatchFrame(src: nat, a: int, hdr: Hdr, pdu: seq<Byte>, air: Air)
      requires Valid() && -1 <= a < numNodes
      modifies this, nodes, peers, conns
      ensures Valid()
      ensures Model() == Dispatch(old(Model()), src, a, hdr, pdu, air).s
      ensures log == old(log) + Dispatch(old(Model()), src, a, hdr, pdu, air).log
    {
      if hdr.llType == LL_ADV {
        ForwardAdvertising(src, a, hdr, pdu, air);
      } else if hdr.llType == LL_DATA {
        ForwardData(src, a, hdr, air);
      }
    }

    method HandleFrame(src: nat, a: int, hdr: Hdr, pdu: seq<Byte>, air: Air)
      requires Valid() && -1 <= a < numNodes
      modifies this, nodes, peers, conns
      ensures Valid()
      ensures Model() == Handle(old(Model()), src, a, hdr, pdu, air).s
      ensures log == old(log) + Handle(old(Model()), src, a, hdr, pdu, air).log
    {
      ghost var before := log;
      ghost var tapped := Overhear(Model(), src, a, hdr, air);
      OverhearFrame(src, a, hdr, air);
      DispatchFrame(src, a, hdr, pdu, air);
      Assoc(before, tapped.log, Dispatch(tapped.s, src, a, hdr, pdu, air).log);
    }

    method ForwardFrame(src: nat, hdr: Hdr, pdu: seq<Byte>, air: Air)
      requires Valid() && src < numPeers
      modifies this, nodes, peers, conns
      ensures Valid()
      ensures Model() == Forward(old(Model()), src, hdr, pdu, air).s
      ensures log == old(log) + Forward(old(Model()), src, hdr, pdu, air).log
    {
      ghost var s := Model();
      assert s.peers[src] == peers[src];
      var a := peers[src].node;
      var ttl := FRESH_TTL;
      if peers[src].bridge {
        if hdr.ttl == 0 { return; }
        ttl := hdr.ttl - 1;
      }
      assert Restamp(s.peers[src].bridge, hdr.ttl) == Some(ttl);
      HandleFrame(src, a, hdr.(ttl := ttl), pdu, air);
    }

    // ------------------------------------------------------------------ the hub at work

    method HangUp(p: nat)
      requires Valid() && p < numPeers && peers[p].open
      modifies this`stats, this`log, nodes, peers, conns
      ensures Valid() && Model() == PeerClose(old(Model()), p)
      ensures log == old(log) + [Hangup(p, old(peers[p]).node)]
    {
      log := log + [Hangup(p, peers[p].node)];
      ClosePeer(p);
    }

    /** One event of the poll loop: a socket is accepted, read from or has gone, or a
        configuration line names a node. */
    method HandleEvent(e: Event)
      requires Valid()
      modifies this, nodes, peers, conns
      ensures Valid()
      ensures Model() == Step(old(Model()), e).s
      ensures log == old(log) + Step(old(Model()), e).log
    {
      hide Forward, Hello, Accept, PeerClose, Named;
      ghost var s := Model();
      match e
      case Joined(bridge) =>
        var _ := PeerAlloc(bridge);
      case Greeted(p, nid, monitor) =>
        if p < numPeers && peers[p].open { HandleHello(p, nid, monitor); }
      case Heard(p, hdr, pdu, air) =>
        if p < numPeers && peers[p].open { ForwardFrame(p, hdr, pdu, air); }
      case Left(p) =>
        if p < numPeers && peers[p].open { HangUp(p); }
      case Declared(nid) =>
        NamedOrFull(s.nodes, nid);
        var _ := FindOrAddNode(nid);
    }

    /** The hub from its start on, over any events. */
    method Serve(events: seq<Event>)
      requires Valid() && Model() == EMPTY_HUB && log == []
      modifies this, nodes, peers, conns
      ensures Valid() && Model() == After(events).s && log == After(events).log
    {
      var i := 0;
      while i < |events|
        invariant 0 <= i <= |events| && Valid()
        invariant Model() == After(events[..i]).s && log == After(events[..i]).log
      {
        assert events[..i + 1][..i] == events[..i];
        HandleEvent(events[i]);
        i := i + 1;
      }
      assert events[..i] == events;
    }
  }

  lemma NamedOrFull(nodes: seq<Node>, nid: NodeId)
    ensures Named(nodes, nid) == nodes || FirstNamed(Named(nodes, nid), nid, 0) >= 0
  {
    var named := Named(nodes, nid);
    if named != nodes {
      assert named[|nodes|].id == nid;
    }
  }
}
