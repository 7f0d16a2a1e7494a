/** What holds of the hub's tables in every reachable state, whatever the sockets,
    the propagation model and the remote ends do. */
module HubInvariants {
  import opened Wire
  import opened HubModel

  // ------------------------------------------------------- the invariant's parts

  predicate NoRepeats(addrs: seq<Addr>) {
    forall i, j :: 0 <= i < j < |addrs| ==> addrs[i] != addrs[j]
  }

  /** Each device address is held by at most one node, and at most once there. */
  predicate AddressesOwned(nodes: seq<Node>) {
    && (forall n :: 0 <= n < |nodes| ==>
          NoRepeats(nodes[n].addrs) && ZERO_ADDR !in nodes[n].addrs && |nodes[n].addrs| <= MAX_ADDRS_PER_NODE)
    && (forall m, n, x :: 0 <= m < |nodes| && 0 <= n < |nodes| && x in nodes[m].addrs && x in nodes[n].addrs ==>
          m == n)
  }

  predicate NamesDistinct(nodes: seq<Node>) {
    forall m, n :: 0 <= m < n < |nodes| ==> nodes[m].id != nodes[n].id
  }

  /** The active connection entries form a partial map from Access Addresses. */
  predicate RoutesDistinct(conns: seq<Conn>) {
    && (forall i :: 0 <= i < |conns| && conns[i].active ==> !Reserved(conns[i].aa))
    && (forall i, j :: 0 <= i < j < |conns| && conns[i].active && conns[j].active ==> conns[i].aa != conns[j].aa)
  }

  /** A live peer bound to a node is that node's current peer. */
  predicate BoundIsCurrent(s: HubState)
    requires InRange(s)
  {
    forall n, p :: 0 <= n < |s.nodes| && 0 <= p < |s.peers| && s.peers[p].node == n ==> s.nodes[n].peer == p
  }

  predicate ClosedIsBlank(s: HubState) {
    forall p :: 0 <= p < |s.peers| && !s.peers[p].open ==> s.peers[p] == BLANK_PEER
  }

  function CountActive(conns: seq<Conn>): nat {
    if conns == [] then 0
    else CountActive(conns[..|conns| - 1]) + (if conns[|conns| - 1].active then 1 else 0)
  }

  function TotalDropped(nodes: seq<Node>): nat {
    if nodes == [] then 0
    else TotalDropped(nodes[..|nodes| - 1]) + nodes[|nodes| - 1].rxDropped
  }

  /** Addresses and names are unambiguous, and the model-drop counter is the nodes' total. */
  predicate NodeTable(nodes: seq<Node>, dropped: nat) {
    && |nodes| <= MAX_NODES
    && AddressesOwned(nodes)
    && NamesDistinct(nodes)
    && dropped == TotalDropped(nodes)
  }

  /** Routes are unambiguous, and every connection opened is closed or still active. */
  predicate ConnTable(conns: seq<Conn>, made: nat, gone: nat) {
    && |conns| <= MAX_CONNS
    && RoutesDistinct(conns)
    && made == gone + CountActive(conns)
  }

  predicate PeerTable(s: HubState)
    requires InRange(s)
  {
    && |s.peers| <= MAX_PEERS
    && BoundIsCurrent(s)
    && ClosedIsBlank(s)
  }

  predicate Inv(s: HubState) {
    && InRange(s)
    && NodeTable(s.nodes, s.stats.droppedModel)
    && ConnTable(s.conns, s.stats.connsOpened, s.stats.connsClosed)
    && PeerTable(s)
  }

  // ------------------------------------------------------------ counting lemmas

  lemma {:induction false} CountActiveUpdate(conns: seq<Conn>, i: nat, c: Conn)
    requires i < |conns|
    ensures CountActive(conns[i := c]) + (if conns[i].active then 1 else 0)
         == CountActive(conns) + (if c.active then 1 else 0)
  {
    var k := |conns| - 1;
    if i < k {
      CountActiveUpdate(conns[..k], i, c);
      assert conns[i := c][..k] == conns[..k][i := c];
    } else {
      assert conns[i := c][..k] == conns[..k];
    }
  }

  lemma {:induction false} DropNodeCount(conns: seq<Conn>, n: int)
    ensures CountActive(DropNode(conns, n)) + CountTouching(conns, n) == CountActive(conns)
  {
    if conns != [] {
      var k := |conns| - 1;
      DropNodeCount(conns[..k], n);
      assert DropNode(conns, n)[..k] == DropNode(conns[..k], n);
    }
  }

  lemma {:induction false} TotalDroppedUpdate(nodes: seq<Node>, i: nat, nd: Node)
    requires i < |nodes|
    ensures TotalDropped(nodes[i := nd]) + nodes[i].rxDropped == TotalDropped(nodes) + nd.rxDropped
  {
    var k := |nodes| - 1;
    if i < k {
      TotalDroppedUpdate(nodes[..k], i, nd);
      assert nodes[i := nd][..k] == nodes[..k][i := nd];
    } else {
      assert nodes[i := nd][..k] == nodes[..k];
    }
  }

  lemma {:induction false} TotalDroppedSame(a: seq<Node>, b: seq<Node>)
    requires |a| == |b| && forall i :: 0 <= i < |a| ==> a[i].rxDropped == b[i].rxDropped
    ensures TotalDropped(a) == TotalDropped(b)
  {
    if a != [] {
      TotalDroppedSame(a[..|a| - 1], b[..|b| - 1]);
    }
  }

  // --------------------------------------------------- addresses: swap and delete

  lemma SwapDelete<T>(s: seq<T>, j: nat)
    requires j < |s|
    ensures multiset(s) == multiset(s[j := s[|s| - 1]][..|s| - 1]) + multiset{s[j]}
  {
    var k := |s| - 1;
    var shorter := s[j := s[k]][..k];
    assert s == s[..k] + [s[k]];
    if j < k {
      assert s[..k] == s[..j] + [s[j]] + s[j + 1..k];
      assert shorter == s[..j] + [s[k]] + s[j + 1..k];
    } else {
      assert shorter == s[..k];
    }
  }

  /** The swap-delete loop removes every copy of one address and keeps every other
      address exactly as often as before. */
  lemma {:induction false} SweepRemovesExactly(addrs: seq<Addr>, addr: Addr, j: nat)
    requires j <= |addrs|
    requires forall k :: 0 <= k < j ==> addrs[k] != addr
    ensures multiset(Sweep(addrs, addr, j)) == multiset(addrs)[addr := 0]
    ensures |Sweep(addrs, addr, j)| <= |addrs|
    decreases |addrs| - j
  {
    if j == |addrs| {
      assert addr !in multiset(addrs);
    } else if addrs[j] == addr {
      SwapDelete(addrs, j);
      SweepRemovesExactly(addrs[j := addrs[|addrs| - 1]][..|addrs| - 1], addr, j);
    } else {
      SweepRemovesExactly(addrs, addr, j + 1);
    }
  }

  lemma {:induction false} NoRepeatsByCount(addrs: seq<Addr>)
    ensures NoRepeats(addrs) <==> forall x :: multiset(addrs)[x] <= 1
  {
    if NoRepeats(addrs) {
      forall x ensures multiset(addrs)[x] <= 1 { CountAtMostOne(addrs, x); }
    } else {
      var i, j :| 0 <= i < j < |addrs| && addrs[i] == addrs[j];
      assert addrs == addrs[..j] + [addrs[j]] + addrs[j + 1..];
      assert addrs[i] in addrs[..j];
      assert multiset(addrs)[addrs[j]] >= 2;
    }
  }

  lemma {:induction false} CountAtMostOne(addrs: seq<Addr>, x: Addr)
    requires NoRepeats(addrs)
    ensures multiset(addrs)[x] <= 1
  {
    if addrs != [] {
      var k := |addrs| - 1;
      assert addrs == addrs[..k] + [addrs[k]];
      CountAtMostOne(addrs[..k], x);
      if addrs[k] == x {
        assert x !in addrs[..k];
      }
    }
  }

  lemma SweepKeepsNoRepeats(addrs: seq<Addr>, addr: Addr)
    requires NoRepeats(addrs)
    ensures NoRepeats(Sweep(addrs, addr, 0))
    ensures forall x :: x in Sweep(addrs, addr, 0) <==> x in addrs && x != addr
    ensures |Sweep(addrs, addr, 0)| <= |addrs|
  {
    SweepRemovesExactly(addrs, addr, 0);
    NoRepeatsByCount(addrs);
    NoRepeatsByCount(Sweep(addrs, addr, 0));
    forall x ensures x in Sweep(addrs, addr, 0) <==> x in addrs && x != addr {
      assert x in Sweep(addrs, addr, 0) <==> x in multiset(Sweep(addrs, addr, 0));
      assert x in addrs <==> x in multiset(addrs);
    }
  }

  /** The other nodes lose the address and nothing else. */
  lemma SweepOthersHoldings(nodes: seq<Node>, n: nat, addr: Addr)
    requires n < |nodes| && AddressesOwned(nodes) && addr !in nodes[n].addrs
    ensures var r := SweepOthers(nodes, n, addr);
      && AddressesOwned(r)
      && r[n] == nodes[n]
      && (forall m, x :: 0 <= m < |nodes| ==> (x in r[m].addrs <==> x in nodes[m].addrs && x != addr))
      && (forall m :: 0 <= m < |nodes| ==> r[m] == nodes[m].(addrs := r[m].addrs))
  {
    var r := SweepOthers(nodes, n, addr);
    forall m | 0 <= m < |nodes|
      ensures NoRepeats(r[m].addrs) && |r[m].addrs| <= |nodes[m].addrs|
      ensures forall x :: x in r[m].addrs <==> x in nodes[m].addrs && x != addr
    {
      SweepKeepsNoRepeats(nodes[m].addrs, addr);
    }
  }

  /** After node n is heard using an address, no other node holds it, every other
      holding is as before, and n holds it unless n's own table was already full. */
  lemma AddAddrHoldings(nodes: seq<Node>, n: nat, addr: Addr)
    requires n < |nodes| && AddressesOwned(nodes) && addr != ZERO_ADDR
    ensures var r := AddAddr(nodes, n, addr);
      && AddressesOwned(r)
      && (forall m, x :: 0 <= m < |nodes| && x != addr ==> (x in r[m].addrs <==> x in nodes[m].addrs))
      && (forall m :: 0 <= m < |nodes| && m != n ==> addr !in r[m].addrs)
      && (addr in r[n].addrs <==> addr in nodes[n].addrs || |nodes[n].addrs| < MAX_ADDRS_PER_NODE)
      && (forall m :: 0 <= m < |nodes| ==> r[m] == nodes[m].(addrs := r[m].addrs))
  {
    if addr !in nodes[n].addrs {
      SweepOthersHoldings(nodes, n, addr);
      if |nodes[n].addrs| < MAX_ADDRS_PER_NODE {
        AppendHoldings(SweepOthers(nodes, n, addr), n, addr);
      }
    }
  }

  lemma AppendHoldings(nodes: seq<Node>, n: nat, addr: Addr)
    requires n < |nodes| && AddressesOwned(nodes) && addr != ZERO_ADDR && |nodes[n].addrs| < MAX_ADDRS_PER_NODE
    requires forall m :: 0 <= m < |nodes| ==> addr !in nodes[m].addrs
    ensures AddressesOwned(nodes[n := nodes[n].(addrs := nodes[n].addrs + [addr])])
  {
  }

  // --------------------------------------------------- every operation keeps Inv

  /** Only bookkeeping fields of the nodes differ. */
  predicate SameHoldings(a: seq<Node>, b: seq<Node>) {
    |a| == |b| && forall i :: 0 <= i < |a| ==>
      a[i].id == b[i].id && a[i].addrs == b[i].addrs && a[i].rxDropped == b[i].rxDropped
  }

  lemma NodeTableSame(a: seq<Node>, b: seq<Node>, dropped: nat)
    requires NodeTable(a, dropped) && SameHoldings(a, b)
    ensures NodeTable(b, dropped)
  {
    TotalDroppedSame(a, b);
    assert forall i :: 0 <= i < |a| ==> a[i].addrs == b[i].addrs;
  }

  lemma DropNodeKeeps(conns: seq<Conn>, n: int, made: nat, gone: nat)
    requires ConnTable(conns, made, gone)
    ensures ConnTable(DropNode(conns, n), made, gone + CountTouching(conns, n))
  {
    DropNodeCount(conns, n);
  }

  lemma PeerCloseKeeps(s: HubState, i: nat)
    requires Inv(s) && i < |s.peers|
    ensures Inv(PeerClose(s, i))
  {
    if s.peers[i].open && s.peers[i].node >= 0 {
      var r := PeerClose(s, i);
      DropNodeKeeps(s.conns, s.peers[i].node, s.stats.connsOpened, s.stats.connsClosed);
      NodeTableSame(s.nodes, r.nodes, s.stats.droppedModel);
      assert PeerTable(r);
    }
  }

  lemma DeliverKeeps(s: HubState, tap: bool, dst: nat, hdr: Hdr, outcome: Outcome)
    requires Inv(s) && dst < |s.peers|
    ensures Inv(Deliver(s, tap, dst, hdr, outcome).s)
  {
    var r := Deliver(s, tap, dst, hdr, outcome).s;
    if outcome.Failed? {
      PeerCloseKeeps(s, dst);
    } else {
      NodeTableSame(s.nodes, r.nodes, s.stats.droppedModel);
      assert PeerTable(r);
    }
  }

  lemma AttenuateKeeps(s: HubState, dst: nat, n: nat)
    requires Inv(s) && n < |s.nodes|
    ensures Inv(Attenuate(s, dst, n).s)
  {
    var r := Attenuate(s, dst, n).s;
    TotalDroppedUpdate(s.nodes, n, r.nodes[n]);
    SameAddresses(s.nodes, r.nodes);
    assert PeerTable(r);
  }

  lemma SameAddresses(a: seq<Node>, b: seq<Node>)
    requires AddressesOwned(a) && NamesDistinct(a) && |a| == |b|
    requires forall i :: 0 <= i < |a| ==> a[i].addrs == b[i].addrs && a[i].id == b[i].id
    ensures AddressesOwned(b) && NamesDistinct(b)
  {
  }

  lemma LoopStepKeeps(loop: Loop, s: HubState, src: nat, hdr: Hdr, air: Air, i: nat)
    requires Inv(s) && i < |s.peers|
    ensures Inv(LoopStep(loop, s, src, hdr, air, i).s)
  {
    DeliverKeeps(s, true, i, hdr, air.tap(i));
    DeliverKeeps(s, false, i, hdr, air.send(i));
    match air.hear(i)
    case Some(rssi) => DeliverKeeps(s, false, i, hdr.(rssi := rssi), air.send(i));
    case None =>
      if s.peers[i].node >= 0 {
        AttenuateKeeps(s, i, s.peers[i].node);
      }
  }

  function Then(r: Run, next: Run): Run {
    Run(next.s, r.log + next.log)
  }

  /** Every turn of a loop takes what holds before it to what holds after it. */
  ghost predicate Threads(p: (nat, Run) -> bool, loop: Loop, src: nat, hdr: Hdr, air: Air) {
    forall r: Run, k: nat :: InRange(r.s) && k < |r.s.peers| && p(k, r) ==>
      p(k + 1, Then(r, LoopStep(loop, r.s, src, hdr, air, k)))
  }

  /** Induction over the loops on the peer table: p tells, before each turn, the state
      reached and the trace so far. */
  lemma {:induction false} IterateThreads(p: (nat, Run) -> bool, loop: Loop, s: HubState, log: seq<Entry>,
                                          src: nat, hdr: Hdr, air: Air, i: nat)
    requires InRange(s) && i <= |s.peers| && p(i, Run(s, log)) && Threads(p, loop, src, hdr, air)
    ensures p(|s.peers|, Then(Run(s, log), Iterate(loop, s, src, hdr, air, i)))
    decreases |s.peers| - i
  {
    hide LoopStep;
    if i == |s.peers| {
      assert log + [] == log;
    } else {
      var head := LoopStep(loop, s, src, hdr, air, i);
      var rest := Iterate(loop, head.s, src, hdr, air, i + 1);
      assert Then(Run(s, log), head) == Run(head.s, log + head.log);
      IterateThreads(p, loop, head.s, log + head.log, src, hdr, air, i + 1);
      assert log + head.log + rest.log == log + (head.log + rest.log);
    }
  }

  lemma IterateKeeps(loop: Loop, s: HubState, src: nat, hdr: Hdr, air: Air, i: nat)
    requires Inv(s) && i <= |s.peers|
    ensures Inv(Iterate(loop, s, src, hdr, air, i).s)
  {
    var p := (k: nat, r: Run) => Inv(r.s);
    forall r: Run, k: nat | InRange(r.s) && k < |r.s.peers| && p(k, r)
      ensures p(k + 1, Then(r, LoopStep(loop, r.s, src, hdr, air, k)))
    {
      LoopStepKeeps(loop, r.s, src, hdr, air, k);
    }
    IterateThreads(p, loop, s, [], src, hdr, air, i);
  }

  /** Storing an entry under an Access Address that no other active entry uses. */
  lemma PutConnKeeps(conns: seq<Conn>, i: nat, c: Conn, made: nat, gone: nat)
    requires ConnTable(conns, made, gone) && i <= |conns| && i < MAX_CONNS
    requires c.active && !Reserved(c.aa)
    requires forall k :: 0 <= k < |conns| && k != i ==> !Carries(conns[k], c.aa)
    ensures ConnTable(PutConn(conns, i, c), if i < |conns| && conns[i].active then made else made + 1, gone)
  {
    if i < |conns| {
      CountActiveUpdate(conns, i, c);
    } else {
      assert PutConn(conns, i, c)[..i] == conns;
    }
  }

  /** Storing the outcome of a CONNECT_IND in the connection table. */
  lemma StoreKeeps(conns: seq<Conn>, aa: nat, a: int, b: int, made: nat, gone: nat)
    requires ConnTable(conns, made, gone) && !Reserved(aa)
    ensures var i := FindConn(conns, aa);
      && (i >= 0 ==> ConnTable(conns[i := conns[i].(a := a, b := b)], made, gone))
      && (i < 0 && AllocSlot(conns).Some? ==>
            ConnTable(PutConn(conns, AllocSlot(conns).value, Conn(true, aa, a, b, 0)), made + 1, gone))
  {
    var i := FindConn(conns, aa);
    if i >= 0 {
      PutConnKeeps(conns, i, conns[i].(a := a, b := b), made, gone);
    } else if AllocSlot(conns).Some? {
      PutConnKeeps(conns, AllocSlot(conns).value, Conn(true, aa, a, b, 0), made, gone);
    }
  }

  lemma SnoopKeeps(s: HubState, a: int, pdu: seq<Byte>)
    requires Inv(s) && -1 <= a < |s.nodes|
    ensures Inv(SnoopAny(s, a, pdu).s)
  {
    var parsed := ParseConnectInd(pdu);
    var r := SnoopAny(s, a, pdu).s;
    if parsed.Some? && !Reserved(parsed.value.aa) {
      var b := FindByAddr(s.nodes, parsed.value.adva);
      StoreKeeps(s.conns, parsed.value.aa, a, b, s.stats.connsOpened, s.stats.connsClosed);
    }
    assert ConnTable(r.conns, r.stats.connsOpened, r.stats.connsClosed);
    assert PeerTable(r);
  }

  lemma LearnKeeps(s: HubState, a: int, addr: Addr)
    requires Inv(s) && -1 <= a < |s.nodes|
    ensures Inv(Learn(s, a, addr))
  {
    if a >= 0 {
      var r := Learn(s, a, addr);
      var heard := s.nodes[a := s.nodes[a].(txPdus := s.nodes[a].txPdus + 1)];
      NodeTableSame(s.nodes, heard, s.stats.droppedModel);
      AddAddrKeeps(heard, a, addr, s.stats.droppedModel);
      assert r.nodes == AddAddr(heard, a, addr);
      SamePeers(s, r);
    }
  }

  lemma SamePeers(s: HubState, r: HubState)
    requires InRange(s) && PeerTable(s) && r.peers == s.peers && r.conns == s.conns && |r.nodes| == |s.nodes|
    requires forall m :: 0 <= m < |s.nodes| ==> r.nodes[m].peer == s.nodes[m].peer
    ensures InRange(r) && PeerTable(r)
  {
  }

  lemma AddAddrKeeps(nodes: seq<Node>, n: nat, addr: Addr, dropped: nat)
    requires NodeTable(nodes, dropped) && n < |nodes|
    ensures NodeTable(AddAddr(nodes, n, addr), dropped)
    ensures forall m :: 0 <= m < |nodes| ==> AddAddr(nodes, n, addr)[m].peer == nodes[m].peer
  {
    if addr != ZERO_ADDR {
      AddAddrHoldings(nodes, n, addr);
    }
    TotalDroppedSame(nodes, AddAddr(nodes, n, addr));
  }

  lemma CountPduKeeps(s: HubState, c: nat)
    requires Inv(s) && c < |s.conns|
    ensures Inv(CountPdu(s, c))
  {
    var r := CountPdu(s, c);
    CountActiveUpdate(s.conns, c, r.conns[c]);
    assert RoutesDistinct(r.conns);
    assert PeerTable(r);
  }

  lemma MirrorKeeps(s: HubState, src: nat, hdr: Hdr, air: Air)
    requires Inv(s)
    ensures Inv(Mirror(s, src, hdr, air).s)
  {
    IterateKeeps(Trunks, s, src, hdr, air, 0);
    assert PeerTable(Mirror(s, src, hdr, air).s);
  }

  lemma RouteOnKeeps(s: HubState, c: nat, src: nat, a: int, hdr: Hdr, air: Air)
    requires Inv(s) && c < |s.conns|
    ensures Inv(RouteOn(s, c, src, a, hdr, air).s)
  {
    var other := Opposite(s.conns[c], a);
    CountPduKeeps(s, c);
    ToEndpointKeeps(CountPdu(s, c), other, hdr, air);
    MirrorKeeps(ToEndpoint(CountPdu(s, c), other, hdr, air).s, src, hdr, air);
  }

  lemma RouteDataKeeps(s: HubState, src: nat, a: int, hdr: Hdr, air: Air)
    requires Inv(s)
    ensures Inv(RouteData(s, src, a, hdr, air).s)
  {
    var c := FindConn(s.conns, hdr.aa);
    if c < 0 {
      IterateKeeps(Trunks, s, src, hdr, air, 0);
    } else {
      RouteOnKeeps(s, c, src, a, hdr, air);
    }
  }

  lemma ToEndpointKeeps(s: HubState, other: int, hdr: Hdr, air: Air)
    requires Inv(s) && -1 <= other < |s.nodes|
    ensures Inv(ToEndpoint(s, other, hdr, air).s)
  {
    if other >= 0 && s.nodes[other].peer >= 0 {
      var dst := s.nodes[other].peer;
      match air.hear(dst)
      case None => AttenuateKeeps(s, dst, other);
      case Some(rssi) => DeliverKeeps(s, false, dst, hdr.(rssi := rssi), air.send(dst));
    }
  }

  lemma OverhearKeeps(s: HubState, src: nat, a: int, hdr: Hdr, air: Air)
    requires Inv(s) && -1 <= a < |s.nodes|
    ensures Inv(Overhear(s, src, a, hdr, air).s)
  {
    LearnKeeps(s, a, hdr.txAddr);
    IterateKeeps(Taps, Learn(s, a, hdr.txAddr), src, hdr, air, 0);
  }

  lemma FanOutKeeps(s: HubState, src: nat, hdr: Hdr, air: Air)
    requires Inv(s)
    ensures Inv(FanOut(s, src, hdr, air).s)
  {
    IterateKeeps(Fan, s, src, hdr, air, 0);
    assert PeerTable(FanOut(s, src, hdr, air).s);
  }

  lemma BroadcastKeeps(s: HubState, src: nat, a: int, hdr: Hdr, pdu: seq<Byte>, air: Air)
    requires Inv(s) && -1 <= a < |s.nodes|
    ensures Inv(Broadcast(s, src, a, hdr, pdu, air).s)
  {
    SnoopKeeps(s, a, pdu);
    FanOutKeeps(SnoopAny(s, a, pdu).s, src, hdr, air);
  }

  lemma ForwardKeeps(s: HubState, src: nat, hdr: Hdr, pdu: seq<Byte>, air: Air)
    requires Inv(s) && src < |s.peers|
    ensures Inv(Forward(s, src, hdr, pdu, air).s)
  {
    hide Overhear, Broadcast, RouteData, NodeTable, ConnTable, PeerTable;
    var ttl := Restamp(s.peers[src].bridge, hdr.ttl);
    if ttl.Some? {
      var h := hdr.(ttl := ttl.value);
      var a := s.peers[src].node;
      OverhearKeeps(s, src, a, h, air);
      var t := Overhear(s, src, a, h, air).s;
      if h.llType == LL_ADV {
        BroadcastKeeps(t, src, a, h, pdu, air);
      } else if h.llType == LL_DATA {
        RouteDataKeeps(t, src, a, h, air);
      }
    }
  }

  lemma NamedKeeps(nodes: seq<Node>, nid: NodeId, dropped: nat)
    requires NodeTable(nodes, dropped)
    ensures NodeTable(Named(nodes, nid), dropped)
  {
    var grown := Named(nodes, nid);
    if |grown| > |nodes| {
      assert grown[..|nodes|] == nodes;
      assert grown[|nodes|].addrs == [];
    }
  }

  lemma DeclareKeeps(s: HubState, nid: NodeId)
    requires Inv(s)
    ensures Inv(Declare(s, nid))
  {
    var r := Declare(s, nid);
    NamedKeeps(s.nodes, nid, s.stats.droppedModel);
    assert forall n :: 0 <= n < |r.nodes| ==> r.nodes[n] == if n < |s.nodes| then s.nodes[n] else Node(nid, [], -1, 0, 0, 0);
    assert InRange(r);
    assert PeerTable(r);
  }

  lemma RebindKeeps(s: HubState, p: nat, n: nat)
    requires Inv(s) && p < |s.peers| && s.peers[p].open && n < |s.nodes|
    ensures Inv(Rebind(s, p, n))
  {
    var r := Rebind(s, p, n);
    NodeTableSame(s.nodes, r.nodes, s.stats.droppedModel);
    assert PeerTable(r);
  }

  lemma BindKeeps(s: HubState, p: nat, nid: NodeId)
    requires Inv(s) && p < |s.peers| && s.peers[p].open
    ensures Inv(Bind(s, p, nid))
  {
    DeclareKeeps(s, nid);
    var t := Declare(s, nid);
    var n := FirstNamed(t.nodes, nid, 0);
    if n >= 0 {
      RebindKeeps(t, p, n);
    }
  }

  lemma MonitorKeeps(s: HubState, p: nat)
    requires Inv(s) && p < |s.peers| && s.peers[p].open
    ensures Inv(s.(peers := s.peers[p := s.peers[p].(monitor := true)]))
  {
  }

  lemma AcceptKeeps(s: HubState, bridge: bool)
    requires Inv(s)
    ensures Inv(Accept(s, bridge))
  {
    assert PeerTable(Accept(s, bridge));
  }

  /** Every event keeps the invariant, for every behaviour of the surroundings. */
  lemma StepKeeps(s: HubState, e: Event)
    requires Inv(s)
    ensures Inv(Step(s, e).s)
  {
    match e
    case Joined(bridge) => AcceptKeeps(s, bridge);
    case Greeted(p, nid, monitor) =>
      if Live(s, p) {
        MonitorKeeps(s, p);
        BindKeeps(s, p, nid);
      }
    case Heard(p, hdr, pdu, air) => if Live(s, p) { ForwardKeeps(s, p, hdr, pdu, air); }
    case Left(p) => if Live(s, p) { PeerCloseKeeps(s, p); }
    case Declared(nid) => DeclareKeeps(s, nid);
  }

  /** The hub after a sequence of events from start-up, with the whole trace. */
  ghost function After(events: seq<Event>): (r: Run)
    ensures InRange(r.s)
  {
    if events == [] then Run(EMPTY_HUB, [])
    else
      var before := After(events[..|events| - 1]);
      var last := Step(before.s, events[|events| - 1]);
      Run(last.s, before.log + last.log)
  }

  /** Safety over whole runs: every reachable state satisfies the invariant. */
  lemma {:induction false} ReachableInv(events: seq<Event>)
    ensures Inv(After(events).s)
  {
    if events != [] {
      ReachableInv(events[..|events| - 1]);
      StepKeeps(After(events[..|events| - 1]).s, events[|events| - 1]);
    }
  }
}
