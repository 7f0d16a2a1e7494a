/** TTL-bounded flooding over an arbitrary graph of hubs joined by bridge links.
    Copies of one frame are told apart by the walk they have taken. Nothing is assumed
    about the order in which copies are processed, and the graph may have cycles,
    parallel links and links from a hub to itself. */
module Flood {

  type HubId = nat

  /** One end of a bridge link: a hub and its peer slot. */
  datatype Port = Port(hub: HubId, slot: nat)

  /** The far end of each port. */
  type Wiring = map<Port, Port>

  /** The ports a copy has left through, oldest first. */
  type Walk = seq<Port>

  /** A copy carries TTL 9 - |walk|, so it crosses at most nine links and is processed
      after at most eight. */
  const MAX_LINKS: nat := 9
  const MAX_HOPS: nat := 8

  ghost predicate Wired(wire: Wiring) {
    forall p :: p in wire ==> wire[p] in wire && wire[wire[p]] == p && wire[p] != p
  }

  ghost predicate Nonempty(wire: Wiring, w: Walk) {
    w != [] && forall i :: 0 <= i < |w| ==> w[i] in wire
  }

  /** The port at which a copy arrives. */
  ghost function Arrival(wire: Wiring, w: Walk): Port
    requires Nonempty(wire, w)
  {
    wire[w[|w| - 1]]
  }

  /** A walk from hub o that never leaves a hub by the port it came in at. */
  ghost predicate IsWalk(wire: Wiring, o: HubId, w: Walk) {
    && Nonempty(wire, w)
    && w[0].hub == o
    && forall i :: 0 <= i < |w| - 1 ==> w[i + 1].hub == wire[w[i]].hub && w[i + 1] != wire[w[i]]
  }

  ghost predicate Reaches(wire: Wiring, o: HubId, w: Walk, h: HubId) {
    IsWalk(wire, o, w) && Arrival(wire, w).hub == h
  }

  /** No walk ever comes back to the hub it started from. */
  ghost predicate Acyclic(wire: Wiring) {
    forall o, w :: !Reaches(wire, o, w, o)
  }

  // --------------------------------------------------------------- the process

  /** Copies under way and copies already taken in. */
  datatype Process = Process(inflight: set<Walk>, done: set<Walk>)

  /** A port through which a copy that has taken walk w is passed on. */
  ghost predicate Onward(wire: Wiring, w: Walk, p: Port)
    requires Nonempty(wire, w)
  {
    p in wire && p.hub == Arrival(wire, w).hub && p != Arrival(wire, w)
  }

  ghost function Children(wire: Wiring, w: Walk): set<Walk>
    requires Nonempty(wire, w)
  {
    set p | p in wire && Onward(wire, w, p) :: w + [p]
  }

  ghost function Begin(wire: Wiring, o: HubId): Process {
    Process(set p | p in wire && p.hub == o :: [p], {})
  }

  /** Some copy under way is taken in; unless its TTL has run out it is passed on
      through every other port of the hub. */
  ghost function Take(wire: Wiring, f: Process, w: Walk): Process
    requires w in f.inflight && Nonempty(wire, w)
  {
    Process(f.inflight - {w} + (if |w| <= MAX_HOPS then Children(wire, w) else {}), f.done + {w})
  }

  /** Only walks are under way or taken in, none of them twice, and each after the walk it
      goes on from. */
  ghost predicate Part(wire: Wiring, o: HubId, f: Process) {
    && (forall w :: w in f.inflight || w in f.done ==> IsWalk(wire, o, w) && |w| <= MAX_LINKS)
    && f.inflight !! f.done
    && (forall w :: (w in f.inflight || w in f.done) && |w| > 1 ==> w[..|w| - 1] in f.done)
  }

  /** No walk is left out either. */
  ghost predicate Inv(wire: Wiring, o: HubId, f: Process) {
    && Part(wire, o, f)
    && (forall p :: p in wire && p.hub == o ==> [p] in f.inflight || [p] in f.done)
    && (forall w, p :: w in f.done && |w| <= MAX_HOPS && Onward(wire, w, p) ==>
          w + [p] in f.inflight || w + [p] in f.done)
  }

  lemma BeginInv(wire: Wiring, o: HubId)
    ensures Inv(wire, o, Begin(wire, o))
  {
  }

  lemma ChildIsWalk(wire: Wiring, o: HubId, w: Walk, p: Port)
    requires IsWalk(wire, o, w) && Onward(wire, w, p)
    ensures IsWalk(wire, o, w + [p])
    ensures (w + [p])[..|w + [p]| - 1] == w
  {
  }

  /** Losing copies on the way makes a flood a part of one. */
  lemma TakePart(wire: Wiring, o: HubId, f: Process, w: Walk, g: Process)
    requires Part(wire, o, f) && w in f.inflight
    requires g.done == f.done + {w} && g.inflight <= Take(wire, f, w).inflight
    ensures Part(wire, o, g)
  {
    forall c | c in Children(wire, w)
      ensures IsWalk(wire, o, c) && |c| == |w| + 1 && c[..|c| - 1] == w && c !in f.done && c != w
    {
      ChildIsWalk(wire, o, w, c[|c| - 1]);
    }
    assert forall x :: x in g.inflight || x in g.done ==>
      x in f.inflight || x in f.done || (|w| <= MAX_HOPS && x in Children(wire, w));
  }

  lemma TakeInv(wire: Wiring, o: HubId, f: Process, w: Walk)
    requires Inv(wire, o, f) && w in f.inflight
    ensures Inv(wire, o, Take(wire, f, w))
  {
    var g := Take(wire, f, w);
    TakePart(wire, o, f, w, g);
    forall x, p | x in g.done && |x| <= MAX_HOPS && Onward(wire, x, p)
      ensures x + [p] in g.inflight || x + [p] in g.done
    {
      if x != w {
        assert x + [p] in f.inflight || x + [p] in f.done;
      }
    }
  }

  /** When nothing is under way any more, exactly the walks of at most nine links have
      been taken in, whatever the order was. */
  lemma {:induction false} QuietMeansComplete(wire: Wiring, o: HubId, f: Process, w: Walk)
    requires Inv(wire, o, f) && f.inflight == {}
    ensures w in f.done <==> IsWalk(wire, o, w) && |w| <= MAX_LINKS
    decreases |w|
  {
    if IsWalk(wire, o, w) && |w| <= MAX_LINKS {
      var p := w[|w| - 1];
      var front := w[..|w| - 1];
      assert w == front + [p];
      if front != [] {
        QuietMeansComplete(wire, o, f, front);
        assert Onward(wire, front, p);
      }
    }
  }

  // ------------------------------------------------------------------ all walks

  /** The walks that go on from the given ones by one link. */
  ghost function Extended(wire: Wiring, ws: set<Walk>): set<Walk> {
    set w, p | w in ws && Nonempty(wire, w) && p in wire && Onward(wire, w, p) :: w + [p]
  }

  /** The walks of at most n links from hub o. */
  ghost function WalksUpTo(wire: Wiring, o: HubId, n: nat): set<Walk> {
    if n == 0 then {}
    else Begin(wire, o).inflight + Extended(wire, WalksUpTo(wire, o, n - 1))
  }

  lemma FrontIsWalk(wire: Wiring, o: HubId, w: Walk)
    requires IsWalk(wire, o, w) && |w| > 1
    ensures Reaches(wire, o, w[..|w| - 1], w[|w| - 1].hub) && Onward(wire, w[..|w| - 1], w[|w| - 1])
    ensures w == w[..|w| - 1] + [w[|w| - 1]]
  {
    var k := |w| - 2;
    assert w[k + 1].hub == wire[w[k]].hub && w[k + 1] != wire[w[k]];
  }

  lemma {:induction false} WalksUpToOnly(wire: Wiring, o: HubId, n: nat, w: Walk)
    requires w in WalksUpTo(wire, o, n)
    ensures IsWalk(wire, o, w) && |w| <= n
    decreases n
  {
    if w !in Begin(wire, o).inflight {
      var shorter := WalksUpTo(wire, o, n - 1);
      var front, p :| front in shorter && Nonempty(wire, front) && p in wire && Onward(wire, front, p) && w == front + [p];
      WalksUpToOnly(wire, o, n - 1, front);
      ChildIsWalk(wire, o, front, p);
    }
  }

  lemma {:induction false} WalksUpToAll(wire: Wiring, o: HubId, n: nat, w: Walk)
    requires IsWalk(wire, o, w) && |w| <= n
    ensures w in WalksUpTo(wire, o, n)
    decreases n
  {
    if |w| == 1 {
      assert w == [w[0]];
    } else {
      var front := w[..|w| - 1];
      FrontIsWalk(wire, o, w);
      WalksUpToAll(wire, o, n - 1, front);
      assert w in Extended(wire, WalksUpTo(wire, o, n - 1));
    }
  }

  /** The walks of one to eight links from hub o to hub h: one for every copy of a frame
      sent at o that h processes. */
  ghost function WalksTo(wire: Wiring, o: HubId, h: HubId): set<Walk> {
    set w | w in WalksUpTo(wire, o, MAX_HOPS) && Reaches(wire, o, w, h)
  }

  lemma WalksToIff(wire: Wiring, o: HubId, h: HubId, w: Walk)
    ensures w in WalksTo(wire, o, h) <==> |w| <= MAX_HOPS && Reaches(wire, o, w, h)
  {
    if w in WalksTo(wire, o, h) {
      WalksUpToOnly(wire, o, MAX_HOPS, w);
    } else if |w| <= MAX_HOPS && Reaches(wire, o, w, h) {
      WalksUpToAll(wire, o, MAX_HOPS, w);
    }
  }

  /** A walk of one to eight links leads from hub o to hub h. */
  ghost predicate Within(wire: Wiring, o: HubId, h: HubId) {
    exists w :: |w| <= MAX_HOPS && Reaches(wire, o, w, h)
  }

  lemma WithinIff(wire: Wiring, o: HubId, h: HubId)
    ensures Within(wire, o, h) <==> WalksTo(wire, o, h) != {}
  {
    if Within(wire, o, h) {
      var w :| |w| <= MAX_HOPS && Reaches(wire, o, w, h);
      WalksToIff(wire, o, h, w);
    } else if WalksTo(wire, o, h) != {} {
      var w :| w in WalksTo(wire, o, h);
      WalksToIff(wire, o, h, w);
    }
  }

  // ------------------------------------------------------- acyclic wirings

  /** The walk taken backwards. */
  ghost function Reverse(wire: Wiring, w: Walk): Walk
    requires forall i :: 0 <= i < |w| ==> w[i] in wire
  {
    seq(|w|, i requires 0 <= i < |w| => wire[w[|w| - 1 - i]])
  }

  /** In an acyclic wiring there is at most one walk from one hub to another: if two
      differed, the first followed by the second backwards would come back. */
  lemma {:induction false} WalkUnique(wire: Wiring, o: HubId, h: HubId, u: Walk, v: Walk)
    requires Wired(wire) && Acyclic(wire)
    requires Reaches(wire, o, u, h) && Reaches(wire, o, v, h)
    ensures u == v
    decreases |u|
  {
    var m, n := |u| - 1, |v| - 1;
    if u[m] == v[n] {
      var p := u[m];
      if m > 0 && n > 0 {
        FrontIsWalk(wire, o, u);
        FrontIsWalk(wire, o, v);
        WalkUnique(wire, o, p.hub, u[..m], v[..n]);
        assert u == u[..m] + [p] && v == v[..n] + [p];
      } else if m > 0 {
        FrontIsWalk(wire, o, u);
        assert false;
      } else if n > 0 {
        FrontIsWalk(wire, o, v);
        assert false;
      } else {
        assert u == [p] && v == [p];
      }
    } else {
      ThereAndBack(wire, o, h, u, v);
      assert false;
    }
  }

  lemma ThereAndBack(wire: Wiring, o: HubId, h: HubId, u: Walk, v: Walk)
    requires Wired(wire)
    requires Reaches(wire, o, u, h) && Reaches(wire, o, v, h)
    requires u[|u| - 1] != v[|v| - 1]
    ensures Reaches(wire, o, u + Reverse(wire, v), o)
  {
    var back := Reverse(wire, v);
    var w := u + back;
    var m := |u|;
    forall i | 0 <= i < |w| - 1
      ensures w[i] in wire && w[i + 1].hub == wire[w[i]].hub && w[i + 1] != wire[w[i]]
    {
      if i < m - 1 {
        assert w[i] == u[i] && w[i + 1] == u[i + 1];
      } else if i == m - 1 {
        assert w[i] == u[m - 1] && w[i + 1] == wire[v[|v| - 1]];
      } else {
        var j := |v| - 1 - (i - m);
        assert w[i] == wire[v[j]] && w[i + 1] == wire[v[j - 1]];
        assert v[j - 1 + 1].hub == wire[v[j - 1]].hub && v[j - 1 + 1] != wire[v[j - 1]];
      }
    }
    assert w[|w| - 1] == wire[v[0]];
  }

  /** In an acyclic wiring a hub is reached by one walk, or by none, and itself by none. */
  lemma OneWalk(wire: Wiring, o: HubId, h: HubId)
    requires Wired(wire) && Acyclic(wire)
    ensures |WalksTo(wire, o, h)| == if Within(wire, o, h) then 1 else 0
    ensures !Within(wire, o, o)
  {
    WithinIff(wire, o, h);
    if Within(wire, o, h) {
      var w :| w in WalksTo(wire, o, h);
      forall v | v in WalksTo(wire, o, h) ensures v == w {
        WalkUnique(wire, o, h, v, w);
      }
      assert WalksTo(wire, o, h) == {w};
    }
  }

  // ------------------------------------------------------------ how many ways there are

  /** From hub o one walk of at most eight links leads to hub h, if that is another hub, and
      none leads back. */
  ghost predicate OneWay(wire: Wiring, o: HubId, h: HubId) {
    !Within(wire, o, o) && (o != h ==> |WalksTo(wire, o, h)| == 1)
  }

  ghost predicate AtMostOneWay(wire: Wiring, o: HubId, h: HubId) {
    !Within(wire, o, o) && (o != h ==> |WalksTo(wire, o, h)| <= 1)
  }

  lemma AcyclicOneWay(wire: Wiring, o: HubId, h: HubId)
    requires Wired(wire) && Acyclic(wire)
    ensures AtMostOneWay(wire, o, h) && (OneWay(wire, o, h) <==> o == h || Within(wire, o, h))
  {
    hide Within, WalksTo, Acyclic;
    OneWalk(wire, o, h);
  }
}
