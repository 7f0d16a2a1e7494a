/** Every flood dies out. The hubs act as the single-hub model says, any write may fail, be
    put off or close its peer, hubs change in between, copies get lost and bridge loops may
    be of any shape. */
module Decay {
  import opened Wire
  import opened HubModel
  import opened HubInvariants
  import opened HubTraffic
  import opened Flood
  import opened Network

  // ------------------------------------------------------------- what is under way

  function Power(b: nat, n: nat): nat {
    if n == 0 then 1 else b * Power(b, n - 1)
  }

  lemma {:induction false} PowerPositive(b: nat, n: nat)
    requires b > 0
    ensures Power(b, n) > 0
  {
    if n > 0 {
      PowerPositive(b, n - 1);
    }
  }

  /** What a copy can still cause where no hub has more than d bridges. */
  function Cost(d: nat, c: Copy): nat {
    Power(d + 1, c.hdr.ttl)
  }

  ghost function Load(d: nat, cs: set<Copy>): nat {
    if cs == {} then 0 else var c :| c in cs; Cost(d, c) + Load(d, cs - {c})
  }

  lemma {:induction false} LoadRemove(d: nat, cs: set<Copy>, x: Copy)
    requires x in cs
    ensures Load(d, cs) == Cost(d, x) + Load(d, cs - {x})
  {
    var c :| c in cs && Load(d, cs) == Cost(d, c) + Load(d, cs - {c});
    if c != x {
      LoadRemove(d, cs - {c}, x);
      LoadRemove(d, cs - {x}, c);
      assert cs - {c} - {x} == cs - {x} - {c};
    }
  }

  lemma {:induction false} LoadUnion(d: nat, xs: set<Copy>, ys: set<Copy>)
    ensures Load(d, xs + ys) <= Load(d, xs) + Load(d, ys)
    decreases |xs|
  {
    if xs == {} {
      assert xs + ys == ys;
    } else {
      var c :| c in xs;
      LoadRemove(d, xs, c);
      LoadUnion(d, xs - {c}, ys);
      if c in ys {
        assert xs - {c} + ys == xs + ys;
      } else {
        LoadRemove(d, xs + ys, c);
        assert xs + ys - {c} == xs - {c} + ys;
      }
    }
  }

  lemma {:induction false} LoadUniform(d: nat, cs: set<Copy>, cost: nat)
    requires forall c :: c in cs ==> Cost(d, c) == cost
    ensures Load(d, cs) == |cs| * cost
  {
    if cs != {} {
      var c :| c in cs;
      LoadRemove(d, cs, c);
      LoadUniform(d, cs - {c}, cost);
      MulSucc(|cs - {c}|, cost);
    }
  }

  lemma MulSucc(k: nat, c: nat)
    ensures (k + 1) * c == k * c + c
  {
  }

  lemma MulLess(k: nat, d: nat, c: nat)
    requires k <= d && c > 0
    ensures k * c <= d * c < (d + 1) * c
  {
    assert (d + 1) * c == d * c + c;
    assert (d - k) * c >= 0;
  }

  // ------------------------------------------------------------------- degrees

  ghost function Ports(wire: Wiring, h: HubId): set<Port> {
    set p | p in wire && p.hub == h
  }

  /** No hub has more than d bridges. */
  ghost predicate DegreeAtMost(wire: Wiring, d: nat) {
    forall h :: |Ports(wire, h)| <= d
  }

  lemma {:induction false} SubsetSize<T>(a: set<T>, b: set<T>)
    requires a <= b
    ensures |a| <= |b|
  {
    if a != {} {
      var x :| x in a;
      SubsetSize(a - {x}, b - {x});
    }
  }

  /** Every network has such a d. */
  lemma SomeDegree(wire: Wiring)
    ensures DegreeAtMost(wire, |wire.Keys|)
  {
    forall h ensures |Ports(wire, h)| <= |wire.Keys| {
      SubsetSize(Ports(wire, h), wire.Keys);
    }
  }

  lemma {:induction false} CopiesSize(path: Walk, hdr: Hdr, ps: set<Port>)
    ensures |set p | p in ps :: Copy(path + [p], hdr)| <= |ps|
  {
    var cs := set p | p in ps :: Copy(path + [p], hdr);
    if ps != {} {
      var p :| p in ps;
      CopiesSize(path, hdr, ps - {p});
      var rest := set q | q in ps - {p} :: Copy(path + [q], hdr);
      assert cs == rest + {Copy(path + [p], hdr)};
    } else {
      assert cs == {};
    }
  }

  /** All that a hub may put out in answer to one copy weighs at most d copies. */
  lemma OutLoad(wire: Wiring, d: nat, h: HubId, src: nat, path: Walk, hdr: Hdr)
    requires DegreeAtMost(wire, d)
    ensures Load(d, Out(wire, h, src, path, hdr)) <= d * Power(d + 1, hdr.ttl)
  {
    var ps := set p | p in wire && p.hub == h && p.slot != src;
    var out := Out(wire, h, src, path, hdr);
    assert out == set p | p in ps :: Copy(path + [p], hdr);
    CopiesSize(path, hdr, ps);
    SubsetSize(ps, Ports(wire, h));
    LoadUniform(d, out, Power(d + 1, hdr.ttl));
    PowerPositive(d + 1, hdr.ttl);
    MulLess(|out|, d, Power(d + 1, hdr.ttl));
  }

  lemma LoadSubset(d: nat, a: set<Copy>, b: set<Copy>)
    requires a <= b
    ensures Load(d, a) <= Load(d, b)
  {
    assert b == a + (b - a);
    LoadDisjoint(d, a, b - a);
  }

  lemma {:induction false} LoadDisjoint(d: nat, xs: set<Copy>, ys: set<Copy>)
    requires xs !! ys
    ensures Load(d, xs + ys) == Load(d, xs) + Load(d, ys)
    decreases |xs|
  {
    if xs == {} {
      assert xs + ys == ys;
    } else {
      var c :| c in xs;
      LoadRemove(d, xs, c);
      LoadRemove(d, xs + ys, c);
      assert xs + ys - {c} == xs - {c} + ys;
      LoadDisjoint(d, xs - {c}, ys);
    }
  }

  // --------------------------------------------------------------------- one hop

  /** The copies are those of a part of a flood from hub o, and TTL and links make nine. */
  ghost predicate Aging(wire: Wiring, o: HubId, j: Journey) {
    && Part(wire, o, Process(Paths(j.inflight), j.done))
    && (forall c :: c in j.inflight ==> c.hdr.ttl + |c.path| == MAX_LINKS)
    && (forall c, e :: c in j.inflight && e in j.inflight && c.path == e.path ==> c == e)
  }

  /** The copies with which one that arrives at a port may be answered. */
  ghost function Reply(wire: Wiring, at: Port, c: Copy): set<Copy> {
    if c.hdr.ttl == 0 then {} else Out(wire, at.hub, at.slot, c.path, c.hdr.(ttl := c.hdr.ttl - 1))
  }

  ghost function Answers(wire: Wiring, c: Copy): set<Copy>
    requires Nonempty(wire, c.path)
  {
    Reply(wire, Arrival(wire, c.path), c)
  }

  /** Whatever happens at the hub where a copy arrives: what it puts out are copies for
      other bridges, with a TTL smaller by one; and none once the TTL is used up. */
  lemma ArrivalAnswers(wire: Wiring, s: HubState, at: Port, c: Copy, pdu: seq<Byte>, air: Air)
    requires HubSane(wire, at.hub, s) && Bridged(s, at.slot) && InRange(s)
    ensures Emitted(at.hub, s, c.path, Forward(s, at.slot, c.hdr, pdu, air).log) <= Reply(wire, at, c)
  {
    hide Handle, Forward;
    ForwardBridge(s, at.slot, c.hdr, pdu, air);
    if c.hdr.ttl > 0 {
      HandleEmits(wire, at.hub, s, at.slot, s.peers[at.slot].node, c.hdr.(ttl := c.hdr.ttl - 1), pdu, air, c.path);
    }
  }

  lemma HopAnswers(wire: Wiring, j: Journey, c: Copy, pdu: seq<Byte>, air: Air)
    requires NetSane(wire, j.hubs) && c in j.inflight && Nonempty(wire, c.path)
    ensures Hop(wire, j, c, pdu, air).inflight <= j.inflight - {c} + Answers(wire, c)
    ensures Hop(wire, j, c, pdu, air).done == j.done + {c.path}
  {
    hide Forward;
    var at := Arrival(wire, c.path);
    var s := j.hubs[at.hub];
    assert HubSane(wire, at.hub, s);
    if Bridged(s, at.slot) {
      ArrivalAnswers(wire, s, at, c, pdu, air);
    }
  }

  lemma AnswersLoad(wire: Wiring, c: Copy, d: nat)
    requires Nonempty(wire, c.path) && DegreeAtMost(wire, d)
    ensures Load(d, Answers(wire, c)) < Cost(d, c)
  {
    PowerPositive(d + 1, c.hdr.ttl);
    if c.hdr.ttl > 0 {
      var at := Arrival(wire, c.path);
      var hdr := c.hdr.(ttl := c.hdr.ttl - 1);
      OutLoad(wire, d, at.hub, at.slot, c.path, hdr);
      PowerPositive(d + 1, hdr.ttl);
      MulLess(d, d, Power(d + 1, hdr.ttl));
    }
  }

  /** Each hop makes what is under way weigh strictly less, and each copy it adds has a
      smaller TTL than the one that caused it. */
  lemma HopDecays(wire: Wiring, j: Journey, c: Copy, pdu: seq<Byte>, air: Air, d: nat)
    requires NetSane(wire, j.hubs) && c in j.inflight && Nonempty(wire, c.path) && DegreeAtMost(wire, d)
    ensures var k := Hop(wire, j, c, pdu, air);
      && Load(d, k.inflight) < Load(d, j.inflight)
      && (forall e :: e in k.inflight && e !in j.inflight ==> e.hdr.ttl < c.hdr.ttl && |e.path| == |c.path| + 1)
  {
    hide Hop, NetSane, DegreeAtMost, Load;
    var k := Hop(wire, j, c, pdu, air);
    HopAnswers(wire, j, c, pdu, air);
    LoadSubset(d, k.inflight, j.inflight - {c} + Answers(wire, c));
    LoadUnion(d, j.inflight - {c}, Answers(wire, c));
    LoadRemove(d, j.inflight, c);
    AnswersLoad(wire, c, d);
  }

  lemma AnswersAge(wire: Wiring, o: HubId, c: Copy, e: Copy)
    requires IsWalk(wire, o, c.path) && c.hdr.ttl + |c.path| == MAX_LINKS && e in Answers(wire, c)
    ensures e.path in Children(wire, c.path) && |c.path| <= MAX_HOPS && e.hdr == c.hdr.(ttl := c.hdr.ttl - 1)
  {
    var at := Arrival(wire, c.path);
    var p :| p in wire && p.hub == at.hub && p.slot != at.slot && e.path == c.path + [p];
    assert Onward(wire, c.path, p);
  }

  lemma HopAges(wire: Wiring, o: HubId, j: Journey, c: Copy, pdu: seq<Byte>, air: Air)
    requires NetSane(wire, j.hubs) && Aging(wire, o, j) && c in j.inflight && Nonempty(wire, c.path)
    ensures var k := Hop(wire, j, c, pdu, air); Aging(wire, o, k) && c.path !in j.done && k.done == j.done + {c.path}
  {
    hide Hop;
    HopAnswers(wire, j, c, pdu, air);
    TakenAges(wire, o, j, c, Hop(wire, j, c, pdu, air));
  }

  /** The bookkeeping of a hop, on the copies alone. */
  lemma TakenAges(wire: Wiring, o: HubId, j: Journey, c: Copy, k: Journey)
    requires Aging(wire, o, j) && c in j.inflight && Nonempty(wire, c.path)
    requires k.inflight <= j.inflight - {c} + Answers(wire, c) && k.done == j.done + {c.path}
    ensures Aging(wire, o, k) && c.path !in j.done
  {
    var f := Process(Paths(j.inflight), j.done);
    assert c.path in f.inflight;
    forall e | e in Answers(wire, c)
      ensures e.path in Children(wire, c.path) && |c.path| <= MAX_HOPS && e.hdr == c.hdr.(ttl := c.hdr.ttl - 1)
              && |e.path| == |c.path| + 1 && e.path[..|c.path|] == c.path
    {
      AnswersAge(wire, o, c, e);
    }
    forall e | e in j.inflight ensures e.path in f.inflight && (|e.path| > 1 ==> e.path[..|e.path| - 1] != c.path) {
      assert e.path in f.inflight;
    }
    var g := Process(Paths(k.inflight), k.done);
    forall w | w in g.inflight ensures w in Take(wire, f, c.path).inflight {
      var e :| e in k.inflight && e.path == w;
    }
    TakePart(wire, o, f, c.path, g);
  }

  // --------------------------------------------------- the hubs stay in order

  /** A network in order stays in order, whatever a hop meets with. */
  lemma HopSane(wire: Wiring, j: Journey, c: Copy, pdu: seq<Byte>, air: Air)
    requires NetSane(wire, j.hubs) && c in j.inflight && Nonempty(wire, c.path)
    ensures NetSane(wire, Hop(wire, j, c, pdu, air).hubs)
  {
    hide Forward;
    var at := Arrival(wire, c.path);
    var s := j.hubs[at.hub];
    assert HubSane(wire, at.hub, s);
    if Bridged(s, at.slot) {
      ForwardSane(wire, at.hub, s, at.slot, c.hdr, pdu, air);
      SaneAfter(wire, j.hubs, at.hub, Forward(s, at.slot, c.hdr, pdu, air).s);
    }
  }

  lemma SaneAfter(wire: Wiring, hubs: map<HubId, HubState>, h: HubId, s: HubState)
    requires NetSane(wire, hubs) && h in hubs && HubSane(wire, h, s)
    ensures NetSane(wire, hubs[h := s])
  {
    var after := hubs[h := s];
    forall k | k in after ensures HubSane(wire, k, after[k]) {
    }
  }

  lemma ForwardSane(wire: Wiring, h: HubId, s: HubState, src: nat, hdr: Hdr, pdu: seq<Byte>, air: Air)
    requires HubSane(wire, h, s) && src < |s.peers|
    ensures HubSane(wire, h, Forward(s, src, hdr, pdu, air).s)
  {
    hide Forward;
    var t := Forward(s, src, hdr, pdu, air).s;
    ForwardKeeps(s, src, hdr, pdu, air);
    ForwardExact(s, src, hdr, pdu, air);
    ForwardCloses(s, src, hdr, pdu, air);
    forall i: nat | Bridged(t, i) ensures Port(h, i) in wire {
      assert Bridged(s, i);
    }
  }

  // ------------------------------------------------------------------------ runs

  /** A frame that a local socket of hub o has just sent, with whatever outcome. */
  ghost predicate Starts(wire: Wiring, o: HubId, pdu: seq<Byte>, j: Journey) {
    exists hubs: map<HubId, HubState>, src: nat, hdr: Hdr, air: Air :: StartsAt(wire, o, pdu, j, hubs, src, hdr, air)
  }

  ghost predicate StartsAt(wire: Wiring, o: HubId, pdu: seq<Byte>, j: Journey,
                           hubs: map<HubId, HubState>, src: nat, hdr: Hdr, air: Air) {
    && NetSane(wire, hubs) && o in hubs && Live(hubs[o], src) && !hubs[o].peers[src].bridge
    && j == Launch(wire, hubs, o, src, hdr, pdu, air)
  }

  /** Next: the hubs change in any way, bridges going down and coming up again included, and
      then some copy under way arrives or is lost, with whatever outcome. */
  ghost predicate Moves(wire: Wiring, pdu: seq<Byte>, j: Journey, k: Journey) {
    exists hubs: map<HubId, HubState>, c: Copy, air: Air :: MovesBy(wire, pdu, j, k, hubs, c, air)
  }

  ghost predicate MovesBy(wire: Wiring, pdu: seq<Byte>, j: Journey, k: Journey,
                          hubs: map<HubId, HubState>, c: Copy, air: Air) {
    && NetSane(wire, hubs) && c in j.inflight && Nonempty(wire, c.path)
    && k == Hop(wire, j.(hubs := hubs), c, pdu, air)
  }

  ghost predicate Floats(wire: Wiring, o: HubId, pdu: seq<Byte>, js: seq<Journey>) {
    js != [] && Starts(wire, o, pdu, js[0]) && forall i :: 0 < i < |js| ==> Moves(wire, pdu, js[i - 1], js[i])
  }

  lemma StartAges(wire: Wiring, o: HubId, pdu: seq<Byte>, j: Journey, d: nat)
    requires Starts(wire, o, pdu, j) && DegreeAtMost(wire, d)
    ensures Aging(wire, o, j) && j.done == {} && Load(d, j.inflight) <= d * Power(d + 1, FRESH_TTL)
  {
    hide Launch;
    var hubs: map<HubId, HubState>, src: nat, hdr: Hdr, air: Air :| StartsAt(wire, o, pdu, j, hubs, src, hdr, air);
    var stamped := hdr.(ttl := FRESH_TTL);
    LaunchOut(wire, hubs, o, src, hdr, pdu, air);
    OutLoad(wire, d, o, src, [], stamped);
    LoadSubset(d, j.inflight, Out(wire, o, src, [], stamped));
    FirstAges(wire, o, src, stamped, j);
  }

  lemma LaunchOut(wire: Wiring, hubs: map<HubId, HubState>, o: HubId, src: nat, hdr: Hdr, pdu: seq<Byte>, air: Air)
    requires NetSane(wire, hubs) && o in hubs && Live(hubs[o], src) && !hubs[o].peers[src].bridge
    ensures var j := Launch(wire, hubs, o, src, hdr, pdu, air);
      j.done == {} && j.inflight <= Out(wire, o, src, [], hdr.(ttl := FRESH_TTL))
  {
    hide Handle, Forward;
    assert HubSane(wire, o, hubs[o]);
    ForwardPlain(hubs[o], src, hdr, pdu, air);
    HandleEmits(wire, o, hubs[o], src, hubs[o].peers[src].node, hdr.(ttl := FRESH_TTL), pdu, air, []);
  }

  lemma FirstAges(wire: Wiring, o: HubId, src: nat, hdr: Hdr, j: Journey)
    requires hdr.ttl == FRESH_TTL && j.done == {} && j.inflight <= Out(wire, o, src, [], hdr)
    ensures Aging(wire, o, j)
  {
    forall c | c in j.inflight ensures |c.path| == 1 && IsWalk(wire, o, c.path) && c.hdr == hdr {
      assert c in Out(wire, o, src, [], hdr);
    }
  }

  lemma {:induction false} FloodCounts(wire: Wiring, o: HubId, pdu: seq<Byte>, js: seq<Journey>, d: nat, i: nat)
    requires Floats(wire, o, pdu, js) && DegreeAtMost(wire, d) && i < |js|
    requires Aging(wire, o, js[0]) && js[0].done == {}
    ensures i + Load(d, js[i].inflight) <= Load(d, js[0].inflight)
    ensures |js[i].done| == i
    ensures Aging(wire, o, js[i])
  {
    hide Hop, Launch;
    if i > 0 {
      FloodCounts(wire, o, pdu, js, d, i - 1);
      MoveDecays(wire, o, pdu, js[i - 1], js[i], d);
    }
  }

  /** In any network, loops included, over every interleaving and whatever fails: after i
      hops i different walks have been taken in and what is under way weighs at least i less
      than at the start; no copy has crossed more than nine links. So a flood ends after at
      most d * (d + 1)^8 hops, where d bounds the number of bridges of a hub. */
  lemma FloodEnds(wire: Wiring, o: HubId, pdu: seq<Byte>, js: seq<Journey>, d: nat, i: nat)
    requires Floats(wire, o, pdu, js) && DegreeAtMost(wire, d) && i < |js|
    ensures i + Load(d, js[i].inflight) <= d * Power(d + 1, FRESH_TTL)
    ensures |js[i].done| == i
    ensures Aging(wire, o, js[i])
  {
    hide Hop, Launch;
    StartAges(wire, o, pdu, js[0], d);
    FloodCounts(wire, o, pdu, js, d, i);
  }

  lemma MoveDecays(wire: Wiring, o: HubId, pdu: seq<Byte>, j: Journey, k: Journey, d: nat)
    requires Moves(wire, pdu, j, k) && Aging(wire, o, j) && DegreeAtMost(wire, d)
    ensures Load(d, k.inflight) < Load(d, j.inflight) && |k.done| == |j.done| + 1 && Aging(wire, o, k)
  {
    hide Hop, NetSane, Part, Load, Nonempty, DegreeAtMost;
    var hubs: map<HubId, HubState>, c: Copy, air: Air :| MovesBy(wire, pdu, j, k, hubs, c, air);
    HopDecays(wire, j.(hubs := hubs), c, pdu, air, d);
    HopAges(wire, o, j.(hubs := hubs), c, pdu, air);
  }

  lemma CopyMoves(wire: Wiring, pdu: seq<Byte>, j: Journey, c: Copy, air: Air)
    requires NetSane(wire, j.hubs) && c in j.inflight && Nonempty(wire, c.path)
    ensures Moves(wire, pdu, j, Hop(wire, j, c, pdu, air))
  {
    hide Hop, NetSane, Nonempty;
    assert j == j.(hubs := j.hubs);
    assert MovesBy(wire, pdu, j, Hop(wire, j, c, pdu, air), j.hubs, c, air);
  }

  /** And while a copy is under way, it can arrive: a flood that cannot go on is over. */
  lemma FloodGoesOn(wire: Wiring, o: HubId, pdu: seq<Byte>, js: seq<Journey>, air: Air) returns (k: Journey)
    requires js != [] && Floats(wire, o, pdu, js) && js[|js| - 1].inflight != {} && NetSane(wire, js[|js| - 1].hubs)
    ensures Floats(wire, o, pdu, js + [k])
  {
    hide Hop, Floats, NetSane, Moves, Load, Power, DegreeAtMost;
    var j := js[|js| - 1];
    SomeDegree(wire);
    FloodEnds(wire, o, pdu, js, |wire.Keys|, |js| - 1);
    var c :| c in j.inflight;
    assert c.path in Paths(j.inflight);
    k := Hop(wire, j, c, pdu, air);
    CopyMoves(wire, pdu, j, c, air);
    FloatsOn(wire, o, pdu, js, k);
  }

  lemma FloatsOn(wire: Wiring, o: HubId, pdu: seq<Byte>, js: seq<Journey>, k: Journey)
    requires js != [] && Floats(wire, o, pdu, js) && Moves(wire, pdu, js[|js| - 1], k)
    ensures Floats(wire, o, pdu, js + [k])
  {
    hide Moves, Starts;
    var ks := js + [k];
    forall i | 0 < i < |ks| ensures Moves(wire, pdu, ks[i - 1], ks[i]) {
      if i < |js| {
        assert ks[i - 1] == js[i - 1] && ks[i] == js[i];
      }
    }
  }
}
