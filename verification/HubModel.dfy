/** The medium hub as a state machine over values: what each operation of
    vbt_medium.c makes of the node, peer and connection tables, together with the
    observable trace it produces. The class in Hub.dfy runs these operations in place. */
module HubModel {
  import opened Wire

  const MAX_NODES: nat := 300
  const MAX_PEERS: nat := 300
  const MAX_CONNS: nat := 512
  const MAX_ADDRS_PER_NODE: nat := 8

  /** The name a node greets with. Names are only ever compared for equality. */
  type NodeId = nat

  /** A named endpoint; it outlives the sockets bound to it. */
  datatype Node = Node(id: NodeId, addrs: seq<Addr>, peer: int,
                       txPdus: nat, rxPdus: nat, rxDropped: nat)

  /** A socket slot. A closed slot is blank. */
  datatype Peer = Peer(open: bool, bridge: bool, monitor: bool, node: int)

  const BLANK_PEER := Peer(false, false, false, -1)

  /** Access Address -> (initiator node, advertiser node). */
  datatype Conn = Conn(active: bool, aa: nat, a: int, b: int, pdus: nat)

  datatype Stats = Stats(advForwarded: nat, dataForwarded: nat,
                         droppedModel: nat, droppedBacklog: nat,
                         connsOpened: nat, connsClosed: nat)

  datatype HubState = HubState(nodes: seq<Node>, peers: seq<Peer>, conns: seq<Conn>, stats: Stats)

  const EMPTY_HUB := HubState([], [], [], Stats(0, 0, 0, 0, 0, 0))

  /** How a write to a peer ends: buffered or written, dropped because the backlog
      is full, or failed hard, which closes the peer. */
  datatype Outcome = Sent | Backlogged | Failed

  /** The surroundings of one frame: which peers the propagation model lets hear it
      (and at what RSSI), and how each write to a tap or to a receiver ends. */
  datatype Air = Air(hear: nat -> Option<int>, tap: nat -> Outcome, send: nat -> Outcome)

  /** One observable thing the hub did. */
  datatype Entry =
    | Observed(aa: nat, a: int, adva: Addr, b: int)
    | Tapped(dst: nat, node: int, hdr: Hdr, outcome: Outcome)
    | Attempt(dst: nat, node: int, hdr: Hdr, outcome: Outcome)
    | ModelDrop(dst: nat, node: int)
    | Hangup(peer: nat, node: int)

  /** A state together with the trace that led to it. */
  datatype Run = Run(s: HubState, log: seq<Entry>)

  predicate InRange(s: HubState) {
    && (forall i :: 0 <= i < |s.peers| ==> -1 <= s.peers[i].node < |s.nodes|)
    && (forall n :: 0 <= n < |s.nodes| ==> -1 <= s.nodes[n].peer < |s.peers|)
    && (forall c :: 0 <= c < |s.conns| ==> -1 <= s.conns[c].a < |s.nodes| && -1 <= s.conns[c].b < |s.nodes|)
  }

  // ---------------------------------------------------------------- node table

  function FirstHolder(nodes: seq<Node>, addr: Addr, i: nat): (r: int)
    requires i <= |nodes|
    ensures r == -1 || i <= r < |nodes|
    ensures r >= 0 ==> addr in nodes[r].addrs
    ensures forall k :: i <= k < (if r >= 0 then r else |nodes|) ==> addr !in nodes[k].addrs
    decreases |nodes| - i
  {
    if i == |nodes| then -1
    else if addr in nodes[i].addrs then i
    else FirstHolder(nodes, addr, i + 1)
  }

  /** The node that holds a device address, or -1. */
  function FindByAddr(nodes: seq<Node>, addr: Addr): (r: int)
    ensures -1 <= r < |nodes|
  {
    if addr == ZERO_ADDR then -1 else FirstHolder(nodes, addr, 0)
  }

  /** The swap-delete loop over one node's addresses, from index j on. */
  function Sweep(addrs: seq<Addr>, addr: Addr, j: nat): (r: seq<Addr>)
    requires j <= |addrs|
    decreases |addrs| - j
  {
    if j == |addrs| then addrs
    else if addrs[j] == addr then Sweep(addrs[j := addrs[|addrs| - 1]][..|addrs| - 1], addr, j)
    else Sweep(addrs, addr, j + 1)
  }

  function SweepOthers(nodes: seq<Node>, n: nat, addr: Addr): (r: seq<Node>)
    ensures |r| == |nodes|
  {
    seq(|nodes|, i requires 0 <= i < |nodes| =>
      if i == n then nodes[i] else nodes[i].(addrs := Sweep(nodes[i].addrs, addr, 0)))
  }

  /** Node n is heard using `addr`. */
  function AddAddr(nodes: seq<Node>, n: nat, addr: Addr): (r: seq<Node>)
    requires n < |nodes|
    ensures |r| == |nodes|
  {
    if addr == ZERO_ADDR || addr in nodes[n].addrs then nodes
    else
      var swept := SweepOthers(nodes, n, addr);
      if |nodes[n].addrs| < MAX_ADDRS_PER_NODE
      then swept[n := swept[n].(addrs := swept[n].addrs + [addr])]
      else swept
  }

  function FirstNamed(nodes: seq<Node>, nid: NodeId, i: nat): (r: int)
    requires i <= |nodes|
    ensures r == -1 || i <= r < |nodes|
    ensures r >= 0 ==> nodes[r].id == nid
    ensures forall k :: i <= k < (if r >= 0 then r else |nodes|) ==> nodes[k].id != nid
    decreases |nodes| - i
  {
    if i == |nodes| then -1
    else if nodes[i].id == nid then i
    else FirstNamed(nodes, nid, i + 1)
  }

  /** The node table with a node called `nid` in it, unless the table is full. */
  function Named(nodes: seq<Node>, nid: NodeId): (r: seq<Node>)
    ensures nodes <= r
    ensures |r| <= |nodes| + 1
  {
    if FirstNamed(nodes, nid, 0) >= 0 || |nodes| >= MAX_NODES then nodes
    else nodes + [Node(nid, [], -1, 0, 0, 0)]
  }

  // ---------------------------------------------------------- connection table

  predicate Carries(c: Conn, aa: nat) {
    c.active && c.aa == aa
  }

  predicate Touches(c: Conn, n: int) {
    c.active && (c.a == n || c.b == n)
  }

  function FirstConn(conns: seq<Conn>, aa: nat, i: nat): (r: int)
    requires i <= |conns|
    ensures r == -1 || i <= r < |conns|
    ensures r >= 0 ==> Carries(conns[r], aa)
    ensures forall k :: i <= k < (if r >= 0 then r else |conns|) ==> !Carries(conns[k], aa)
    decreases |conns| - i
  {
    if i == |conns| then -1
    else if Carries(conns[i], aa) then i
    else FirstConn(conns, aa, i + 1)
  }

  function FindConn(conns: seq<Conn>, aa: nat): (r: int)
    ensures -1 <= r < |conns|
  {
    if Reserved(aa) then -1 else FirstConn(conns, aa, 0)
  }

  function FirstFree(conns: seq<Conn>, i: nat): (r: nat)
    requires i <= |conns|
    ensures i <= r <= |conns|
    ensures r < |conns| ==> !conns[r].active
    ensures forall k :: i <= k < r ==> conns[k].active
    decreases |conns| - i
  {
    if i == |conns| || !conns[i].active then i else FirstFree(conns, i + 1)
  }

  /** Slot for a new connection: the first inactive entry, or one past the end; None when full. */
  function AllocSlot(conns: seq<Conn>): (r: Option<nat>) {
    var i := FirstFree(conns, 0);
    if i < |conns| || |conns| < MAX_CONNS then Some(i) else None
  }

  function PutConn(conns: seq<Conn>, i: nat, c: Conn): (r: seq<Conn>)
    requires i <= |conns|
  {
    if i < |conns| then conns[i := c] else conns + [c]
  }

  /** What snooping a CONNECT_IND from node `a` (-1 for a remote one) does. */
  function Snoop(s: HubState, a: int, pdu: seq<Byte>): (r: Run) {
    var parsed := ParseConnectInd(pdu);
    if parsed.None? || Reserved(parsed.value.aa) then Run(s, [])
    else
      var ind := parsed.value;
      var b := FindByAddr(s.nodes, ind.adva);
      var i := FindConn(s.conns, ind.aa);
      if i >= 0 then
        Run(s.(conns := s.conns[i := s.conns[i].(a := a, b := b)]), [Observed(ind.aa, a, ind.adva, b)])
      else
        var slot := AllocSlot(s.conns);
        if slot.None? then Run(s, [])
        else
          Run(s.(conns := PutConn(s.conns, slot.value, Conn(true, ind.aa, a, b, 0)),
                 stats := s.stats.(connsOpened := s.stats.connsOpened + 1)),
              [Observed(ind.aa, a, ind.adva, b)])
  }

  /** A CONNECT_IND among the advertising PDUs is snooped; the others are not. */
  function SnoopAny(s: HubState, a: int, pdu: seq<Byte>): (r: Run)
    requires InRange(s) && -1 <= a < |s.nodes|
    ensures InRange(r.s) && r.s.nodes == s.nodes && r.s.peers == s.peers
    ensures r.log == [] || (|r.log| == 1 && r.log[0].Observed?)
  {
    if IsConnectInd(pdu) then Snoop(s, a, pdu) else Run(s, [])
  }

  function DropNode(conns: seq<Conn>, n: int): (r: seq<Conn>)
    ensures |r| == |conns|
  {
    seq(|conns|, i requires 0 <= i < |conns| =>
      if Touches(conns[i], n) then conns[i].(active := false) else conns[i])
  }

  function CountTouching(conns: seq<Conn>, n: int): nat {
    if conns == [] then 0
    else CountTouching(conns[..|conns| - 1], n) + (if Touches(conns[|conns| - 1], n) then 1 else 0)
  }

  // ---------------------------------------------------------------- peer table

  function PeerClose(s: HubState, i: nat): (r: HubState)
    requires InRange(s) && i < |s.peers|
    ensures |r.peers| == |s.peers| && |r.nodes| == |s.nodes| && |r.conns| == |s.conns|
    ensures InRange(r)
  {
    if !s.peers[i].open then s
    else
      var n := s.peers[i].node;
      var t :=
        if n < 0 then s
        else s.(nodes := if s.nodes[n].peer == i then s.nodes[n := s.nodes[n].(peer := -1)] else s.nodes,
                conns := DropNode(s.conns, n),
                stats := s.stats.(connsClosed := s.stats.connsClosed + CountTouching(s.conns, n)));
      t.(peers := t.peers[i := BLANK_PEER])
  }

  function FirstClosed(peers: seq<Peer>, i: nat): (r: nat)
    requires i <= |peers|
    ensures i <= r <= |peers|
    ensures r < |peers| ==> !peers[r].open
    ensures forall k :: i <= k < r ==> peers[k].open
    decreases |peers| - i
  {
    if i == |peers| || !peers[i].open then i else FirstClosed(peers, i + 1)
  }

  /** A socket is accepted into the first closed slot, or a new one, or refused. */
  function Accept(s: HubState, bridge: bool): (r: HubState)
    requires InRange(s)
    ensures InRange(r)
  {
    var i := FirstClosed(s.peers, 0);
    var p := Peer(true, bridge, false, -1);
    if i < |s.peers| then s.(peers := s.peers[i := p])
    else if |s.peers| < MAX_PEERS then s.(peers := s.peers + [p])
    else s
  }

  /** A node called `nid` exists from now on, unless the table is full. */
  function Declare(s: HubState, nid: NodeId): (r: HubState)
    requires InRange(s)
    ensures InRange(r)
  {
    s.(nodes := Named(s.nodes, nid))
  }

  /** Node n moves to peer p; the peer it had, if another, is unbound. */
  function Rebind(s: HubState, p: nat, n: nat): (r: HubState)
    requires InRange(s) && p < |s.peers| && n < |s.nodes|
    ensures InRange(r)
  {
    var was := s.nodes[n].peer;
    var peers := if was >= 0 && was != p then s.peers[was := s.peers[was].(node := -1)] else s.peers;
    s.(nodes := s.nodes[n := s.nodes[n].(peer := p)], peers := peers[p := peers[p].(node := n)])
  }

  /** Peer p announces itself as node `nid`. */
  function Bind(s: HubState, p: nat, nid: NodeId): (r: HubState)
    requires InRange(s) && p < |s.peers|
    ensures InRange(r)
  {
    var t := Declare(s, nid);
    var n := FirstNamed(t.nodes, nid, 0);
    if n < 0 then s else Rebind(t, p, n)
  }

  /** A hello: a monitor becomes a tap, anything else binds to its node. */
  function Hello(s: HubState, p: nat, nid: NodeId, monitor: bool): (r: HubState)
    requires InRange(s) && p < |s.peers|
    ensures InRange(r)
  {
    if monitor then s.(peers := s.peers[p := s.peers[p].(monitor := true)]) else Bind(s, p, nid)
  }

  // ------------------------------------------------------------------- fan-out

  /** One copy of a frame goes to peer `dst`, as a tap's copy or as a receiver's. */
  function Deliver(s: HubState, tap: bool, dst: nat, hdr: Hdr, outcome: Outcome): (r: Run)
    requires InRange(s) && dst < |s.peers|
    ensures InRange(r.s) && |r.s.peers| == |s.peers| && |r.s.nodes| == |s.nodes|
  {
    if !s.peers[dst].open then Run(s, [])
    else
      var n := s.peers[dst].node;
      var log := [if tap then Tapped(dst, n, hdr, outcome) else Attempt(dst, n, hdr, outcome)];
      match outcome
      case Sent =>
        Run(if n >= 0 then s.(nodes := s.nodes[n := s.nodes[n].(rxPdus := s.nodes[n].rxPdus + 1)]) else s, log)
      case Backlogged =>
        Run(s.(stats := s.stats.(droppedBacklog := s.stats.droppedBacklog + 1)), log)
      case Failed => Run(PeerClose(s, dst), log)
  }

  /** The propagation model keeps a frame from the node bound to peer `dst`. */
  function Attenuate(s: HubState, dst: nat, n: nat): (r: Run)
    requires InRange(s) && n < |s.nodes|
    ensures InRange(r.s) && |r.s.peers| == |s.peers| && |r.s.nodes| == |s.nodes|
  {
    Run(s.(nodes := s.nodes[n := s.nodes[n].(rxDropped := s.nodes[n].rxDropped + 1)],
           stats := s.stats.(droppedModel := s.stats.droppedModel + 1)),
        [ModelDrop(dst, n)])
  }

  predicate IsTap(s: HubState, src: nat, i: nat)
    requires i < |s.peers|
  {
    i != src && s.peers[i].open && s.peers[i].monitor
  }

  predicate IsTrunk(s: HubState, src: nat, i: nat)
    requires i < |s.peers|
  {
    i != src && s.peers[i].open && s.peers[i].bridge
  }

  /** Receives broadcasts: a node-bound peer or a bridge, other than the sender. */
  predicate IsListener(s: HubState, src: nat, i: nat)
    requires i < |s.peers|
  {
    i != src && s.peers[i].open && (s.peers[i].node >= 0 || s.peers[i].bridge)
  }

  function TapStep(s: HubState, src: nat, hdr: Hdr, air: Air, i: nat): (r: Run)
    requires InRange(s) && i < |s.peers|
    ensures InRange(r.s) && |r.s.peers| == |s.peers| && |r.s.nodes| == |s.nodes|
  {
    if IsTap(s, src, i) then Deliver(s, true, i, hdr, air.tap(i)) else Run(s, [])
  }

  function TrunkStep(s: HubState, src: nat, hdr: Hdr, air: Air, i: nat): (r: Run)
    requires InRange(s) && i < |s.peers|
    ensures InRange(r.s) && |r.s.peers| == |s.peers| && |r.s.nodes| == |s.nodes|
  {
    if IsTrunk(s, src, i) then Deliver(s, false, i, hdr, air.send(i)) else Run(s, [])
  }

  function FanStep(s: HubState, src: nat, hdr: Hdr, air: Air, i: nat): (r: Run)
    requires InRange(s) && i < |s.peers|
    ensures InRange(r.s) && |r.s.peers| == |s.peers| && |r.s.nodes| == |s.nodes|
  {
    if !IsListener(s, src, i) then Run(s, [])
    else if s.peers[i].bridge then Deliver(s, false, i, hdr, air.send(i))
    else
      match air.hear(i)
      case None => Attenuate(s, i, s.peers[i].node)
      case Some(rssi) => Deliver(s, false, i, hdr.(rssi := rssi), air.send(i))
  }

  /** The three loops over the peer table. */
  datatype Loop = Taps | Trunks | Fan

  function LoopStep(loop: Loop, s: HubState, src: nat, hdr: Hdr, air: Air, i: nat): (r: Run)
    requires InRange(s) && i < |s.peers|
    ensures InRange(r.s) && |r.s.peers| == |s.peers| && |r.s.nodes| == |s.nodes|
  {
    match loop
    case Taps => TapStep(s, src, hdr, air, i)
    case Trunks => TrunkStep(s, src, hdr, air, i)
    case Fan => FanStep(s, src, hdr, air, i)
  }

  /** A loop over the peer table from slot i on. */
  function Iterate(loop: Loop, s: HubState, src: nat, hdr: Hdr, air: Air, i: nat): (r: Run)
    requires InRange(s) && i <= |s.peers|
    ensures InRange(r.s) && |r.s.peers| == |s.peers| && |r.s.nodes| == |s.nodes|
    decreases |s.peers| - i
  {
    if i == |s.peers| then Run(s, [])
    else
      var head := LoopStep(loop, s, src, hdr, air, i);
      var rest := Iterate(loop, head.s, src, hdr, air, i + 1);
      Run(rest.s, head.log + rest.log)
  }

  /** The endpoint a data PDU from node `src` (-1: from a bridge) is routed to. */
  function Opposite(c: Conn, src: int): int {
    if c.a == src then c.b else c.a
  }

  /** Delivery of a data PDU to the endpoint opposite to its sender, if it is online here. */
  function ToEndpoint(s: HubState, other: int, hdr: Hdr, air: Air): (r: Run)
    requires InRange(s) && -1 <= other < |s.nodes|
    ensures InRange(r.s) && |r.s.peers| == |s.peers| && |r.s.nodes| == |s.nodes|
  {
    if other < 0 || s.nodes[other].peer < 0 then Run(s, [])
    else
      var dst := s.nodes[other].peer;
      match air.hear(dst)
      case None => Attenuate(s, dst, other)
      case Some(rssi) => Deliver(s, false, dst, hdr.(rssi := rssi), air.send(dst))
  }

  function CountPdu(s: HubState, c: nat): (r: HubState)
    requires InRange(s) && c < |s.conns|
    ensures InRange(r)
  {
    s.(conns := s.conns[c := s.conns[c].(pdus := s.conns[c].pdus + 1)])
  }

  /** A routed data PDU is also mirrored to the bridges, then counted. */
  function Mirror(s: HubState, src: nat, hdr: Hdr, air: Air): (r: Run)
    requires InRange(s)
    ensures InRange(r.s) && |r.s.peers| == |s.peers| && |r.s.nodes| == |s.nodes|
  {
    var far := Iterate(Trunks, s, src, hdr, air, 0);
    Run(far.s.(stats := far.s.stats.(dataForwarded := far.s.stats.dataForwarded + 1)), far.log)
  }

  /** A data PDU on connection entry c, from node a. */
  function RouteOn(s: HubState, c: nat, src: nat, a: int, hdr: Hdr, air: Air): (r: Run)
    requires InRange(s) && c < |s.conns|
    ensures InRange(r.s) && |r.s.peers| == |s.peers| && |r.s.nodes| == |s.nodes|
  {
    var near := ToEndpoint(CountPdu(s, c), Opposite(s.conns[c], a), hdr, air);
    var far := Mirror(near.s, src, hdr, air);
    Run(far.s, near.log + far.log)
  }

  /** A data PDU on an unknown Access Address goes to the bridges only. */
  function RouteData(s: HubState, src: nat, a: int, hdr: Hdr, air: Air): (r: Run)
    requires InRange(s)
    ensures InRange(r.s) && |r.s.peers| == |s.peers| && |r.s.nodes| == |s.nodes|
  {
    var c := FindConn(s.conns, hdr.aa);
    if c < 0 then Iterate(Trunks, s, src, hdr, air, 0) else RouteOn(s, c, src, a, hdr, air)
  }

  /** An advertising PDU goes to every listener, and is counted. */
  function FanOut(s: HubState, src: nat, hdr: Hdr, air: Air): (r: Run)
    requires InRange(s)
    ensures InRange(r.s) && |r.s.peers| == |s.peers| && |r.s.nodes| == |s.nodes|
  {
    var fanned := Iterate(Fan, s, src, hdr, air, 0);
    Run(fanned.s.(stats := fanned.s.stats.(advForwarded := fanned.s.stats.advForwarded + 1)), fanned.log)
  }

  function Broadcast(s: HubState, src: nat, a: int, hdr: Hdr, pdu: seq<Byte>, air: Air): (r: Run)
    requires InRange(s) && -1 <= a < |s.nodes|
    ensures InRange(r.s) && |r.s.peers| == |s.peers| && |r.s.nodes| == |s.nodes|
  {
    var snooped := SnoopAny(s, a, pdu);
    var fanned := FanOut(snooped.s, src, hdr, air);
    Run(fanned.s, snooped.log + fanned.log)
  }

  function Learn(s: HubState, a: int, addr: Addr): (r: HubState)
    requires InRange(s) && -1 <= a < |s.nodes|
    ensures InRange(r) && |r.peers| == |s.peers| && |r.nodes| == |s.nodes|
  {
    if a < 0 then s
    else
      var heard := s.nodes[a := s.nodes[a].(txPdus := s.nodes[a].txPdus + 1)];
      s.(nodes := AddAddr(heard, a, addr))
  }

  /** The TTL stamped on a frame from peer src; None when the frame has expired. */
  function Restamp(bridge: bool, ttl: nat): Option<nat> {
    if !bridge then Some(FRESH_TTL) else if ttl == 0 then None else Some(ttl - 1)
  }

  /** The sender is noted and the taps get their copies, before any routing. */
  function Overhear(s: HubState, src: nat, a: int, hdr: Hdr, air: Air): (r: Run)
    requires InRange(s) && -1 <= a < |s.nodes|
    ensures InRange(r.s) && |r.s.peers| == |s.peers| && |r.s.nodes| == |s.nodes|
  {
    Iterate(Taps, Learn(s, a, hdr.txAddr), src, hdr, air, 0)
  }

  function Dispatch(s: HubState, src: nat, a: int, hdr: Hdr, pdu: seq<Byte>, air: Air): (r: Run)
    requires InRange(s) && -1 <= a < |s.nodes|
    ensures InRange(r.s) && |r.s.peers| == |s.peers| && |r.s.nodes| == |s.nodes|
  {
    if hdr.llType == LL_ADV then Broadcast(s, src, a, hdr, pdu, air)
    else if hdr.llType == LL_DATA then RouteData(s, src, a, hdr, air)
    else Run(s, [])
  }

  function Handle(s: HubState, src: nat, a: int, hdr: Hdr, pdu: seq<Byte>, air: Air): (r: Run)
    requires InRange(s) && -1 <= a < |s.nodes|
    ensures InRange(r.s) && |r.s.peers| == |s.peers| && |r.s.nodes| == |s.nodes|
  {
    var tapped := Overhear(s, src, a, hdr, air);
    var rest := Dispatch(tapped.s, src, a, hdr, pdu, air);
    Run(rest.s, tapped.log + rest.log)
  }

  /** Everything the hub does with one frame from peer `src`. */
  function Forward(s: HubState, src: nat, hdr: Hdr, pdu: seq<Byte>, air: Air): (r: Run)
    requires InRange(s) && src < |s.peers|
    ensures InRange(r.s) && |r.s.peers| == |s.peers| && |r.s.nodes| == |s.nodes|
  {
    var ttl := Restamp(s.peers[src].bridge, hdr.ttl);
    if ttl.None? then Run(s, [])
    else
      Handle(s, src, s.peers[src].node, hdr.(ttl := ttl.value), pdu, air)
  }

  // ---------------------------------------------------------------------- runs

  datatype Event =
    | Joined(bridge: bool)
    | Greeted(p: nat, nid: NodeId, monitor: bool)
    | Heard(p: nat, hdr: Hdr, pdu: seq<Byte>, air: Air)
    | Left(p: nat)
    | Declared(nid: NodeId)

  predicate Live(s: HubState, p: nat) {
    p < |s.peers| && s.peers[p].open
  }

  /** One event at the hub. An event on a closed slot cannot occur and changes nothing. */
  function Step(s: HubState, e: Event): (r: Run)
    requires InRange(s)
    ensures InRange(r.s)
  {
    match e
    case Joined(bridge) => Run(Accept(s, bridge), [])
    case Greeted(p, nid, monitor) => if Live(s, p) then Run(Hello(s, p, nid, monitor), []) else Run(s, [])
    case Heard(p, hdr, pdu, air) => if Live(s, p) then Forward(s, p, hdr, pdu, air) else Run(s, [])
    case Left(p) => if Live(s, p) then Run(PeerClose(s, p), [Hangup(p, s.peers[p].node)]) else Run(s, [])
    case Declared(nid) => Run(Declare(s, nid), [])
  }
}
