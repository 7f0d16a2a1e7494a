/** The counters that the hub shows: over every run each of them equals a number of entries
    of the trace, or of events of the run. */
module HubStats {
  import opened Wire
  import opened HubModel
  import opened HubInvariants
  import opened HubRouting
  import opened HubTraffic

  /** The counters: frames dropped by a full backlog and by the propagation model, frames a
      node was sent, lost to the model and sent itself, advertising and data frames passed
      on. */
  datatype Counter = Backlogged | Dropped | Received(n: nat) | Missed(n: nat) | Spoke(n: nat) | Advertised | Routed

  function Value(s: HubState, c: Counter): nat {
    match c
    case Backlogged => s.stats.droppedBacklog
    case Dropped => s.stats.droppedModel
    case Received(n) => if n < |s.nodes| then s.nodes[n].rxPdus else 0
    case Missed(n) => if n < |s.nodes| then s.nodes[n].rxDropped else 0
    case Spoke(n) => if n < |s.nodes| then s.nodes[n].txPdus else 0
    case Advertised => s.stats.advForwarded
    case Routed => s.stats.dataForwarded
  }

  /** The entries a counter counts. */
  predicate Hits(e: Entry, c: Counter) {
    match c
    case Backlogged => (e.Attempt? || e.Tapped?) && e.outcome == Outcome.Backlogged
    case Dropped => e.ModelDrop?
    case Received(n) => (e.Attempt? || e.Tapped?) && e.outcome == Sent && e.node == n
    case Missed(n) => e.ModelDrop? && e.node == n
    case _ => false
  }

  function Tally(log: seq<Entry>, c: Counter): nat {
    if log == [] then 0 else Tally(log[..|log| - 1], c) + if Hits(log[|log| - 1], c) then 1 else 0
  }

  /** The events a counter counts: frames of a node's socket, advertising frames, and data
      frames for which there is a route; expired ones are not counted. */
  ghost predicate Happens(s: HubState, e: Event, c: Counter) {
    && e.Heard? && Live(s, e.p) && (s.peers[e.p].bridge ==> e.hdr.ttl > 0)
    && match c
       case Spoke(n) => s.peers[e.p].node == n
       case Advertised => e.hdr.llType == LL_ADV
       case Routed => e.hdr.llType == LL_DATA && e.hdr.aa in Routes(s.conns)
       case _ => false
  }

  predicate Tallied(s: HubState, r: Run, c: Counter) {
    |r.s.nodes| == |s.nodes| && Value(r.s, c) == Value(s, c) + Tally(r.log, c)
  }

  lemma {:induction false} TallyConcat(x: seq<Entry>, y: seq<Entry>, c: Counter)
    ensures Tally(x + y, c) == Tally(x, c) + Tally(y, c)
  {
    if y == [] {
      assert x + y == x;
    } else {
      assert (x + y)[..|x + y| - 1] == x + y[..|y| - 1];
      TallyConcat(x, y[..|y| - 1], c);
    }
  }

  lemma TalliedThen(s: HubState, r: Run, q: Run, c: Counter)
    requires Tallied(s, r, c) && Tallied(r.s, q, c)
    ensures Tallied(s, Run(q.s, r.log + q.log), c)
  {
    TallyConcat(r.log, q.log, c);
  }

  lemma TallyOne(e: Entry, c: Counter)
    ensures Tally([e], c) == if Hits(e, c) then 1 else 0
  {
    assert [e][..0] == [];
  }

  // -------------------------------------------------------------- one copy

  lemma DeliverTallied(s: HubState, tap: bool, dst: nat, hdr: Hdr, outcome: Outcome, c: Counter)
    requires InRange(s) && dst < |s.peers|
    ensures Tallied(s, Deliver(s, tap, dst, hdr, outcome), c)
  {
    if s.peers[dst].open {
      TallyOne(Deliver(s, tap, dst, hdr, outcome).log[0], c);
    }
  }

  lemma AttenuateTallied(s: HubState, dst: nat, n: nat, c: Counter)
    requires InRange(s) && n < |s.nodes|
    ensures Tallied(s, Attenuate(s, dst, n), c)
  {
    TallyOne(ModelDrop(dst, n), c);
  }

  lemma LoopStepTallied(loop: Loop, s: HubState, src: nat, hdr: Hdr, air: Air, i: nat, c: Counter)
    requires InRange(s) && i < |s.peers|
    ensures Tallied(s, LoopStep(loop, s, src, hdr, air, i), c)
  {
    hide Deliver, Attenuate;
    DeliverTallied(s, true, i, hdr, air.tap(i), c);
    DeliverTallied(s, false, i, hdr, air.send(i), c);
    match air.hear(i)
    case Some(rssi) => DeliverTallied(s, false, i, hdr.(rssi := rssi), air.send(i), c);
    case None =>
      if s.peers[i].node >= 0 {
        AttenuateTallied(s, i, s.peers[i].node, c);
      }
  }

  lemma IterateTallied(loop: Loop, s: HubState, src: nat, hdr: Hdr, air: Air, c: Counter)
    requires InRange(s)
    ensures Tallied(s, Iterate(loop, s, src, hdr, air, 0), c)
  {
    hide LoopStep, Iterate, Value, Hits;
    var p := (k: nat, r: Run) => Tallied(s, r, c);
    forall r: Run, k: nat | InRange(r.s) && k < |r.s.peers| && p(k, r)
      ensures p(k + 1, Then(r, LoopStep(loop, r.s, src, hdr, air, k)))
    {
      LoopStepTallied(loop, r.s, src, hdr, air, k, c);
      TalliedThen(s, r, LoopStep(loop, r.s, src, hdr, air, k), c);
    }
    IterateThreads(p, loop, s, [], src, hdr, air, 0);
    var all := Iterate(loop, s, src, hdr, air, 0);
    assert Then(Run(s, []), all) == all;
  }

  lemma ToEndpointTallied(s: HubState, other: int, hdr: Hdr, air: Air, c: Counter)
    requires InRange(s) && -1 <= other < |s.nodes|
    ensures Tallied(s, ToEndpoint(s, other, hdr, air), c)
  {
    hide Deliver, Attenuate;
    if other >= 0 && s.nodes[other].peer >= 0 {
      var dst := s.nodes[other].peer;
      match air.hear(dst)
      case None => AttenuateTallied(s, dst, other, c);
      case Some(rssi) => DeliverTallied(s, false, dst, hdr.(rssi := rssi), air.send(dst), c);
    }
  }

  // -------------------------------------------------------------- one frame

  /** The frame counts one more for c, if `counts` says so, on top of what its trace says. */
  predicate Counted(s: HubState, r: Run, c: Counter, counts: bool) {
    |r.s.nodes| == |s.nodes| && Value(r.s, c) == Value(s, c) + Tally(r.log, c) + if counts then 1 else 0
  }

  lemma RouteDataCounted(s: HubState, src: nat, a: int, hdr: Hdr, air: Air, c: Counter)
    requires Inv(s)
    ensures Counted(s, RouteData(s, src, a, hdr, air), c, c == Routed && hdr.aa in Routes(s.conns))
  {
    hide Iterate, ToEndpoint, Routes, Hits;
    FindConnIsRoute(s.conns, hdr.aa);
    var i := FindConn(s.conns, hdr.aa);
    if i < 0 {
      IterateTallied(Trunks, s, src, hdr, air, c);
    } else {
      var t := CountPdu(s, i);
      var near := ToEndpoint(t, Opposite(s.conns[i], a), hdr, air);
      ToEndpointTallied(t, Opposite(s.conns[i], a), hdr, air, c);
      var far := Iterate(Trunks, near.s, src, hdr, air, 0);
      IterateTallied(Trunks, near.s, src, hdr, air, c);
      TallyConcat(near.log, far.log, c);
    }
  }

  lemma BroadcastCounted(s: HubState, src: nat, a: int, hdr: Hdr, pdu: seq<Byte>, air: Air, c: Counter)
    requires InRange(s) && -1 <= a < |s.nodes|
    ensures Counted(s, Broadcast(s, src, a, hdr, pdu, air), c, c == Advertised)
  {
    hide Iterate;
    var snooped := SnoopAny(s, a, pdu);
    assert Tally(snooped.log, c) == 0 by {
      if snooped.log != [] {
        TallyOne(snooped.log[0], c);
        assert snooped.log == [snooped.log[0]];
      }
    }
    IterateTallied(Fan, snooped.s, src, hdr, air, c);
    TallyConcat(snooped.log, Iterate(Fan, snooped.s, src, hdr, air, 0).log, c);
  }

  lemma LearnCounted(s: HubState, a: int, addr: Addr, c: Counter)
    requires InRange(s) && -1 <= a < |s.nodes|
    ensures Counted(s, Run(Learn(s, a, addr), []), c, a >= 0 && c == Spoke(a))
  {
  }

  lemma OverhearCounted(s: HubState, src: nat, a: int, hdr: Hdr, air: Air, c: Counter)
    requires InRange(s) && -1 <= a < |s.nodes|
    ensures Counted(s, Overhear(s, src, a, hdr, air), c, a >= 0 && c == Spoke(a))
  {
    hide Iterate, Learn, Value;
    LearnCounted(s, a, hdr.txAddr, c);
    IterateTallied(Taps, Learn(s, a, hdr.txAddr), src, hdr, air, c);
  }

  lemma DispatchCounted(s: HubState, src: nat, a: int, hdr: Hdr, pdu: seq<Byte>, air: Air, c: Counter)
    requires Inv(s) && -1 <= a < |s.nodes|
    ensures Counted(s, Dispatch(s, src, a, hdr, pdu, air), c,
      (c == Advertised && hdr.llType == LL_ADV) || (c == Routed && hdr.llType == LL_DATA && hdr.aa in Routes(s.conns)))
  {
    hide Broadcast, RouteData, Routes, Value;
    if hdr.llType == LL_ADV {
      BroadcastCounted(s, src, a, hdr, pdu, air, c);
    } else if hdr.llType == LL_DATA {
      RouteDataCounted(s, src, a, hdr, air, c);
    }
  }

  lemma CountedThen(s: HubState, r: Run, q: Run, c: Counter, x: bool, y: bool)
    requires Counted(s, r, c, x) && Counted(r.s, q, c, y) && !(x && y)
    ensures Counted(s, Run(q.s, r.log + q.log), c, x || y)
  {
    TallyConcat(r.log, q.log, c);
  }

  lemma HandleCounted(s: HubState, src: nat, a: int, hdr: Hdr, pdu: seq<Byte>, air: Air, c: Counter)
    requires Inv(s) && Exact(s) && -1 <= a < |s.nodes|
    ensures Counted(s, Handle(s, src, a, hdr, pdu, air), c,
      || (a >= 0 && c == Spoke(a)) || (c == Advertised && hdr.llType == LL_ADV)
      || (c == Routed && hdr.llType == LL_DATA && hdr.aa in Routes(s.conns)))
  {
    hide Overhear, Dispatch, Routes, Value, Tally;
    var tapped := Overhear(s, src, a, hdr, air);
    OverhearKeeps(s, src, a, hdr, air);
    OverhearQuiet(s, src, a, hdr, air);
    OverhearCounted(s, src, a, hdr, air, c);
    DispatchCounted(tapped.s, src, a, hdr, pdu, air, c);
    CountedThen(s, tapped, Dispatch(tapped.s, src, a, hdr, pdu, air), c, a >= 0 && c == Spoke(a),
                (c == Advertised && hdr.llType == LL_ADV) || (c == Routed && hdr.llType == LL_DATA && hdr.aa in Routes(s.conns)));
  }

  // ------------------------------------------------------------------- runs

  lemma ForwardCounted(s: HubState, p: nat, hdr: Hdr, pdu: seq<Byte>, air: Air, c: Counter)
    requires Inv(s) && Exact(s) && Live(s, p)
    ensures Counted(s, Forward(s, p, hdr, pdu, air), c, Happens(s, Heard(p, hdr, pdu, air), c))
  {
    hide Handle, Routes, Value, Tally;
    var ttl := Restamp(s.peers[p].bridge, hdr.ttl);
    if ttl.Some? {
      HandleCounted(s, p, s.peers[p].node, hdr.(ttl := ttl.value), pdu, air, c);
    } else {
      assert Tally([], c) == 0 by { NothingTallied(c); }
    }
  }

  lemma NothingTallied(c: Counter)
    ensures Tally([], c) == 0
  {
  }

  lemma CloseCounted(s: HubState, p: nat, c: Counter)
    requires InRange(s) && Live(s, p)
    ensures Value(PeerClose(s, p), c) == Value(s, c)
  {
  }

  lemma DeclareCounted(s: HubState, nid: NodeId, c: Counter)
    requires InRange(s)
    ensures Value(Declare(s, nid), c) == Value(s, c)
  {
  }

  lemma HelloCounted(s: HubState, p: nat, nid: NodeId, monitor: bool, c: Counter)
    requires InRange(s) && p < |s.peers|
    ensures Value(Hello(s, p, nid, monitor), c) == Value(s, c)
  {
    if !monitor {
      DeclareCounted(s, nid, c);
    }
  }

  /** One event moves a counter by the entries it adds to the trace that the counter counts,
      and by one if the counter counts the event. */
  lemma StepCounted(s: HubState, e: Event, c: Counter)
    requires Inv(s) && Exact(s)
    ensures Value(Step(s, e).s, c) == Value(s, c) + Tally(Step(s, e).log, c) + if Happens(s, e, c) then 1 else 0
  {
    hide Forward, Hello, PeerClose, Declare, Tally, Hits;
    NothingTallied(c);
    match e
    case Heard(p, hdr, pdu, air) =>
      if Live(s, p) {
        ForwardCounted(s, p, hdr, pdu, air, c);
      }
    case Left(p) =>
      if Live(s, p) {
        HangupTallied(p, s.peers[p].node, c);
        CloseCounted(s, p, c);
      }
    case Greeted(p, nid, monitor) =>
      if Live(s, p) {
        HelloCounted(s, p, nid, monitor, c);
      }
    case Declared(nid) => DeclareCounted(s, nid, c);
    case Joined(bridge) =>
  }

  lemma HangupTallied(p: nat, n: int, c: Counter)
    ensures Tally([Hangup(p, n)], c) == 0
  {
    TallyOne(Hangup(p, n), c);
  }

  /** How many of the events of a run a counter counts. */
  ghost function Occurrences(events: seq<Event>, c: Counter): nat {
    if events == [] then 0
    else
      var n := |events| - 1;
      Occurrences(events[..n], c) + if Happens(After(events[..n]).s, events[n], c) then 1 else 0
  }

  /** Over every run with one greeting a socket, every counter is the number of entries and
      events that it counts. */
  lemma {:induction false} CountersAreHistory(events: seq<Event>, c: Counter)
    requires Disciplined(events)
    ensures Value(After(events).s, c) == Tally(After(events).log, c) + Occurrences(events, c)
  {
    hide Step, Value, Happens;
    if events == [] {
      EmptyCounts(c);
    } else {
      var n := |events| - 1;
      var front := events[..n];
      CountersAreHistory(front, c);
      ReachableInv(front);
      ReachableExact(front);
      StepCounted(After(front).s, events[n], c);
      TallyConcat(After(front).log, Step(After(front).s, events[n]).log, c);
    }
  }

  lemma EmptyCounts(c: Counter)
    ensures Value(EMPTY_HUB, c) == 0
  {
  }

  // ------------------------------------------------- the PDUs of a connection

  /** Entry i, if it is still in use, is for the same Access Address, and counts `more` PDUs
      more. */
  predicate Grows(s: HubState, t: HubState, i: nat, more: nat) {
    i < |s.conns| && s.conns[i].active && i < |t.conns| && t.conns[i].active ==>
      t.conns[i].aa == s.conns[i].aa && t.conns[i].pdus == s.conns[i].pdus + more
  }

  /** Nothing becomes active that was not. */
  predicate Fades(s: HubState, t: HubState, i: nat) {
    |t.conns| == |s.conns| && (i < |s.conns| && t.conns[i].active ==> s.conns[i].active)
  }

  lemma LoopStepGrows(loop: Loop, s: HubState, src: nat, hdr: Hdr, air: Air, k: nat, i: nat)
    requires InRange(s) && k < |s.peers|
    ensures var t := LoopStep(loop, s, src, hdr, air, k).s; Grows(s, t, i, 0) && Fades(s, t, i)
  {
  }

  lemma IterateGrows(loop: Loop, s: HubState, src: nat, hdr: Hdr, air: Air, i: nat)
    requires InRange(s)
    ensures var t := Iterate(loop, s, src, hdr, air, 0).s; Grows(s, t, i, 0) && Fades(s, t, i)
  {
    hide LoopStep, Iterate;
    var p := (k: nat, r: Run) => Grows(s, r.s, i, 0) && Fades(s, r.s, i);
    forall r: Run, k: nat | InRange(r.s) && k < |r.s.peers| && p(k, r)
      ensures p(k + 1, Then(r, LoopStep(loop, r.s, src, hdr, air, k)))
    {
      LoopStepGrows(loop, r.s, src, hdr, air, k, i);
    }
    IterateThreads(p, loop, s, [], src, hdr, air, 0);
  }

  lemma ToEndpointGrows(s: HubState, n: int, hdr: Hdr, air: Air, i: nat)
    requires InRange(s) && -1 <= n < |s.nodes|
    ensures var t := ToEndpoint(s, n, hdr, air).s; Grows(s, t, i, 0) && Fades(s, t, i)
  {
  }

  lemma CountPduGrows(s: HubState, aa: nat, i: nat)
    requires Inv(s) && FindConn(s.conns, aa) >= 0
    ensures var t := CountPdu(s, FindConn(s.conns, aa));
      Grows(s, t, i, if i < |s.conns| && s.conns[i].active && s.conns[i].aa == aa then 1 else 0) && Fades(s, t, i)
  {
  }

  lemma RouteDataGrows(s: HubState, src: nat, a: int, hdr: Hdr, air: Air, i: nat)
    requires Inv(s)
    ensures var t := RouteData(s, src, a, hdr, air).s;
      Grows(s, t, i, if i < |s.conns| && s.conns[i].active && s.conns[i].aa == hdr.aa then 1 else 0) && Fades(s, t, i)
  {
    hide Iterate, ToEndpoint, NodeTable, PeerTable, ConnTable;
    var c := FindConn(s.conns, hdr.aa);
    if c < 0 {
      IterateGrows(Trunks, s, src, hdr, air, i);
      if i < |s.conns| && s.conns[i].active {
        NotThere(s, hdr.aa, i);
      }
    } else {
      CountPduGrows(s, hdr.aa, i);
      var t, n := CountPdu(s, c), Opposite(s.conns[c], a);
      ToEndpointGrows(t, n, hdr, air, i);
      IterateGrows(Trunks, ToEndpoint(t, n, hdr, air).s, src, hdr, air, i);
    }
  }

  lemma NotThere(s: HubState, aa: nat, i: nat)
    requires Inv(s) && FindConn(s.conns, aa) < 0 && i < |s.conns| && s.conns[i].active
    ensures s.conns[i].aa != aa
  {
  }

  /** A data frame adds one to the PDUs of the connection of its Access Address, and to those
      of no other. */
  lemma PdusCounted(s: HubState, src: nat, hdr: Hdr, pdu: seq<Byte>, air: Air, i: nat)
    requires Inv(s) && Exact(s) && Live(s, src) && (s.peers[src].bridge ==> hdr.ttl > 0) && hdr.llType == LL_DATA
    ensures Grows(s, Forward(s, src, hdr, pdu, air).s, i,
      if i < |s.conns| && s.conns[i].active && s.conns[i].aa == hdr.aa then 1 else 0)
  {
    hide Overhear, RouteData;
    var a := s.peers[src].node;
    var h := hdr.(ttl := if s.peers[src].bridge then hdr.ttl - 1 else FRESH_TTL);
    OverhearKeeps(s, src, a, h, air);
    OverhearQuiet(s, src, a, h, air);
    RouteDataGrows(Overhear(s, src, a, h, air).s, src, a, h, air, i);
  }
}
