/** The queue of HCI packets on their way to the guest: a 256-slot ring indexed by two
    free-running 32-bit counters, drained into the scattered buffers the guest supplies. */
module Ring {
  import opened Wire
  import opened Framing

  const SLOTS: nat := 256
  const COUNTER_RANGE: nat := 0x1_0000_0000

  type Packet = seq<Byte>

  // --------------------------------------------------------- scatter and gather

  function Sum(lens: seq<nat>): nat {
    if lens == [] then 0 else lens[0] + Sum(lens[1..])
  }

  function Concat(pieces: seq<Packet>): Packet {
    if pieces == [] then [] else pieces[0] + Concat(pieces[1..])
  }

  /** The pieces of b that go into segments of the given sizes, up to the last one reached. */
  function Scatter(lens: seq<nat>, b: Packet): (r: seq<Packet>)
    ensures |r| <= |lens|
  {
    if lens == [] || b == [] then []
    else
      var c := Min(lens[0], |b|);
      [b[..c]] + Scatter(lens[1..], b[c..])
  }

  /** Scattering loses nothing but what there is no room for. */
  lemma {:induction false} ScatterFills(lens: seq<nat>, b: Packet)
    ensures Concat(Scatter(lens, b)) == b[..Min(Sum(lens), |b|)]
    ensures forall i :: 0 <= i < |Scatter(lens, b)| ==> |Scatter(lens, b)[i]| <= lens[i]
  {
    if lens == [] || b == [] {
    } else {
      var c := Min(lens[0], |b|);
      ScatterFills(lens[1..], b[c..]);
      assert Scatter(lens, b)[1..] == Scatter(lens[1..], b[c..]);
      assert b[..Min(Sum(lens), |b|)] == b[..c] + b[c..][..Min(Sum(lens[1..]), |b| - c)];
    }
  }

  lemma {:induction false} ConcatAppend(pieces: seq<Packet>, p: Packet)
    ensures Concat(pieces + [p]) == Concat(pieces) + p
  {
    if pieces == [] {
      assert pieces + [p] == [p];
      assert Concat([p]) == p + Concat([]);
    } else {
      ConcatAppend(pieces[1..], p);
      assert (pieces + [p])[1..] == pieces[1..] + [p];
    }
  }

  lemma {:induction false} ConcatSplit(pieces: seq<Packet>, k: nat)
    requires k <= |pieces|
    ensures Concat(pieces) == Concat(pieces[..k]) + Concat(pieces[k..])
  {
    if k == 0 {
      assert pieces[0..] == pieces;
    } else {
      ConcatSplit(pieces[1..], k - 1);
      assert pieces[..k][1..] == pieces[1..][..k - 1];
      assert pieces[k..] == pieces[1..][k - 1..];
    }
  }

  /** iov_from_buf: spreads a packet over the segments of a guest buffer. */
  method IovFromBuf(lens: seq<nat>, b: Packet) returns (pieces: seq<Packet>, off: nat)
    ensures pieces == Scatter(lens, b)
    ensures off == |Concat(pieces)| == Min(Sum(lens), |b|)
  {
    pieces, off := [], 0;
    var i := 0;
    assert lens[0..] == lens && b[0..] == b;
    while i < |lens| && off < |b|
      invariant i <= |lens| && off <= |b|
      invariant pieces + Scatter(lens[i..], b[off..]) == Scatter(lens, b)
      invariant off == |Concat(pieces)|
    {
      var c := lens[i];
      if c > |b| - off { c := |b| - off; }
      ScatterNext(lens, b, i, off, c, pieces);
      ConcatAppend(pieces, b[off..off + c]);
      pieces := pieces + [b[off..off + c]];
      off := off + c;
      i := i + 1;
    }
    assert Scatter(lens[i..], b[off..]) == [];
    ScatterFills(lens, b);
  }

  lemma ScatterNext(lens: seq<nat>, b: Packet, i: nat, off: nat, c: nat, done: seq<Packet>)
    requires i < |lens| && off < |b| && c == Min(lens[i], |b| - off)
    ensures done + Scatter(lens[i..], b[off..]) == (done + [b[off..off + c]]) + Scatter(lens[i + 1..], b[off + c..])
  {
    assert lens[i..][1..] == lens[i + 1..];
    assert b[off..][c..] == b[off + c..];
    assert b[off..][..c] == b[off..off + c];
  }

  /** iov_to_buf: collects what the guest scattered, up to the size of the local buffer. */
  method IovToBuf(pieces: seq<Packet>, max: nat) returns (b: Packet)
    ensures b == Concat(pieces)[..Min(max, |Concat(pieces)|)]
  {
    b := [];
    var i := 0;
    while i < |pieces| && |b| < max
      invariant i <= |pieces|
      invariant b == Concat(pieces[..i])[..Min(max, |Concat(pieces[..i])|)]
    {
      var c := |pieces[i]|;
      if c > max - |b| { c := max - |b|; }
      assert pieces[..i + 1] == pieces[..i] + [pieces[i]];
      ConcatAppend(pieces[..i], pieces[i]);
      GatherNext(Concat(pieces[..i]), pieces[i], max);
      b := b + pieces[i][..c];
      i := i + 1;
    }
    ConcatSplit(pieces, i);
    if i == |pieces| {
      assert pieces[..i] == pieces;
    }
  }

  lemma GatherNext(got: Packet, piece: Packet, max: nat)
    requires |got| < max
    ensures got[..Min(max, |got|)] == got
    ensures got + piece[..Min(|piece|, max - |got|)] == (got + piece)[..Min(max, |got + piece|)]
  {
  }

  // -------------------------------------------------------------- the simple queue

  /** Packets waiting, buffers the guest has supplied and not got back, and what it got
      back: for each buffer, the contents of its segments. */
  datatype Fifo = Fifo(waiting: seq<Packet>, buffers: seq<seq<nat>>, handed: seq<seq<Packet>>)

  /** Drains the queue into the free buffers, one packet a buffer. */
  function Drain(f: Fifo): (r: Fifo)
    ensures |r.waiting| <= |f.waiting|
    ensures r.waiting == [] || r.buffers == []
    decreases |f.waiting|
  {
    if f.waiting == [] || f.buffers == [] then f
    else Drain(Fifo(f.waiting[1..], f.buffers[1..], f.handed + [Scatter(f.buffers[0], f.waiting[0])]))
  }

  predicate Accepts(f: Fifo, pkt: Packet) {
    |pkt| <= MAX_MSG_SIZE && |f.waiting| < SLOTS
  }

  function Offer(f: Fifo, pkt: Packet): Fifo {
    if Accepts(f, pkt) then Drain(f.(waiting := f.waiting + [pkt])) else f
  }

  function Supply(f: Fifo, buffers: seq<seq<nat>>): Fifo {
    Drain(f.(buffers := f.buffers + buffers))
  }

  // ------------------------------------------------------------------ slots as a queue

  /** The n packets from counter value x on. */
  function Held(slots: seq<Packet>, x: nat, n: nat): (r: seq<Packet>)
    requires |slots| == SLOTS
    ensures |r| == n
    decreases n
  {
    if n == 0 then [] else [slots[x % SLOTS]] + Held(slots, x + 1, n - 1)
  }

  lemma CounterSlot(x: nat)
    ensures x % COUNTER_RANGE % SLOTS == x % SLOTS
  {
    var q := x / COUNTER_RANGE;
    assert x == q * COUNTER_RANGE + x % COUNTER_RANGE;
    assert q * COUNTER_RANGE == q * 0x100_0000 * SLOTS;
    SameRest(x % COUNTER_RANGE, q * 0x100_0000);
  }

  lemma {:induction false} SameRest(y: nat, k: nat)
    ensures (y + k * SLOTS) % SLOTS == y % SLOTS
  {
    if k > 0 {
      SameRest(y, k - 1);
      assert y + k * SLOTS == (y + (k - 1) * SLOTS) + SLOTS;
    }
  }

  lemma {:induction false} HeldSame(slots: seq<Packet>, x: nat, y: nat, n: nat)
    requires |slots| == SLOTS && x % SLOTS == y % SLOTS
    ensures Held(slots, x, n) == Held(slots, y, n)
    decreases n
  {
    if n > 0 {
      NextSlot(x, y);
      HeldSame(slots, x + 1, y + 1, n - 1);
    }
  }

  lemma NextSlot(x: nat, y: nat)
    requires x % SLOTS == y % SLOTS
    ensures (x + 1) % SLOTS == (y + 1) % SLOTS
  {
  }

  lemma HeldFirst(slots: seq<Packet>, head: nat, n: nat)
    requires |slots| == SLOTS && n > 0
    ensures Held(slots, head, n)[0] == slots[head % SLOTS]
    ensures Held(slots, head, n)[1..] == Held(slots, (head + 1) % COUNTER_RANGE, n - 1)
  {
    CounterSlot(head + 1);
    HeldSame(slots, head + 1, (head + 1) % COUNTER_RANGE, n - 1);
  }

  lemma {:induction false} HeldElsewhere(slots: seq<Packet>, x: nat, n: nat, k: nat, p: Packet)
    requires |slots| == SLOTS && n <= k < SLOTS
    ensures Held(slots[(x + k) % SLOTS := p], x, n) == Held(slots, x, n)
    decreases n
  {
    if n > 0 {
      assert (x + k) % SLOTS != x % SLOTS;
      HeldElsewhere(slots, x + 1, n - 1, k - 1, p);
    }
  }

  lemma {:induction false} HeldAppend(slots: seq<Packet>, x: nat, n: nat)
    requires |slots| == SLOTS
    ensures Held(slots, x, n + 1) == Held(slots, x, n) + [slots[(x + n) % SLOTS]]
    decreases n
  {
    if n > 0 {
      HeldAppend(slots, x + 1, n - 1);
    }
  }

  lemma HeldLast(slots: seq<Packet>, head: nat, n: nat, p: Packet)
    requires |slots| == SLOTS && n < SLOTS
    ensures Held(slots[(head + n) % SLOTS := p], head, n + 1) == Held(slots, head, n) + [p]
  {
    HeldElsewhere(slots, head, n, n, p);
    HeldAppend(slots[(head + n) % SLOTS := p], head, n);
  }

  /** How many counter steps lead from head to tail. */
  function Distance(head: nat, tail: nat): nat {
    (tail - head) % COUNTER_RANGE
  }

  lemma HeadMoves(head: nat, tail: nat)
    requires head < COUNTER_RANGE && tail < COUNTER_RANGE && head != tail
    ensures Distance(head, tail) > 0
    ensures Distance((head + 1) % COUNTER_RANGE, tail) == Distance(head, tail) - 1
  {
  }

  lemma TailMoves(head: nat, tail: nat)
    requires head < COUNTER_RANGE && tail < COUNTER_RANGE && Distance(head, tail) < SLOTS
    ensures Distance(head, (tail + 1) % COUNTER_RANGE) == Distance(head, tail) + 1
    ensures tail % SLOTS == (head + Distance(head, tail)) % SLOTS
  {
    if tail < head {
      CounterSlot(tail + COUNTER_RANGE);
    }
  }

  class PendingRing {
    const slots: array<Packet>
    var head: nat
    var tail: nat
    var buffers: seq<seq<nat>>
    var handed: seq<seq<Packet>>

    ghost predicate Valid()
      reads this
    {
      slots.Length == SLOTS && head < COUNTER_RANGE && tail < COUNTER_RANGE && Distance(head, tail) <= SLOTS
    }

    ghost function Model(): Fifo
      requires Valid()
      reads this, slots
    {
      Fifo(Held(slots[..], head, Distance(head, tail)), buffers, handed)
    }

    constructor ()
      ensures Valid() && fresh(slots) && Model() == Fifo([], [], [])
    {
      slots := new Packet[SLOTS](_ => []);
      head, tail, buffers, handed := 0, 0, [], [];
    }

    /** One turn of the drain: the oldest packet goes into the guest's next buffer. */
    method Deliver()
      requires Valid() && head != tail && buffers != []
      modifies this
      ensures Valid()
      ensures var f := old(Model());
        Model() == Fifo(f.waiting[1..], f.buffers[1..], f.handed + [Scatter(f.buffers[0], f.waiting[0])])
      ensures Distance(head, tail) < old(Distance(head, tail))
    {
      HeadMoves(head, tail);
      HeldFirst(slots[..], head, Distance(head, tail));
      var pieces, n := IovFromBuf(buffers[0], slots[head % SLOTS]);
      buffers := buffers[1..];
      handed := handed + [pieces];
      head := (head + 1) % COUNTER_RANGE;
    }

    method FlushPending()
      requires Valid()
      modifies this
      ensures Valid() && Model() == Drain(old(Model()))
    {
      while head != tail && buffers != []
        invariant Valid()
        invariant Drain(Model()) == Drain(old(Model()))
        decreases Distance(head, tail)
      {
        HeadMoves(head, tail);
        Deliver();
      }
    }

    method QueueToGuest(pkt: Packet)
      requires Valid()
      modifies this, slots
      ensures Valid() && Model() == Offer(old(Model()), pkt)
      ensures var f, g := old(Model()), Model();
        if |pkt| <= 556 && |f.waiting| < 256
        then |g.handed| + |g.waiting| == |f.handed| + |f.waiting| + 1 && (f.buffers == [] ==> g == f.(waiting := f.waiting + [pkt]))
        else g == f
    {
      hide Held, Drain;
      if |pkt| > MAX_MSG_SIZE { return; }
      if Distance(head, tail) >= SLOTS { return; }
      ghost var before, n := slots[..], Distance(head, tail);
      TailMoves(head, tail);
      HeldLast(before, head, n, pkt);
      slots[tail % SLOTS] := pkt;
      assert slots[..] == before[(head + n) % SLOTS := pkt];
      tail := (tail + 1) % COUNTER_RANGE;
      DrainCounts(Model());
      FlushPending();
    }

    /** The guest has put fresh buffers on the receive queue. */
    method HandleRx(more: seq<seq<nat>>)
      requires Valid()
      modifies this
      ensures Valid() && Model() == Supply(old(Model()), more)
    {
      buffers := buffers + more;
      FlushPending();
    }
  }

  // ------------------------------------------------------------------------ runs

  datatype Op = Offered(pkt: Packet) | Supplied(buffers: seq<seq<nat>>)

  function Apply(f: Fifo, op: Op): Fifo {
    match op
    case Offered(pkt) => Offer(f, pkt)
    case Supplied(buffers) => Supply(f, buffers)
  }

  function After(ops: seq<Op>): Fifo {
    if ops == [] then Fifo([], [], []) else Apply(After(ops[..|ops| - 1]), ops[|ops| - 1])
  }

  /** The packets taken in over a run: all those offered but the ones of more than 556 octets
      and the ones that came while 256 more packets had been taken in than buffers supplied. */
  function Accepted(ops: seq<Op>): seq<Packet> {
    if ops == [] then []
    else
      var was, op := ops[..|ops| - 1], ops[|ops| - 1];
      Accepted(was) + if op.Offered? && |op.pkt| <= 556 && |Accepted(was)| < |Buffers(was)| + 256 then [op.pkt] else []
  }

  /** The buffers supplied over a run. */
  function Buffers(ops: seq<Op>): seq<seq<nat>> {
    if ops == [] then []
    else
      var was, op := ops[..|ops| - 1], ops[|ops| - 1];
      Buffers(was) + (if op.Supplied? then op.buffers else [])
  }

  lemma {:induction false} DrainCounts(f: Fifo)
    ensures var g := Drain(f); |g.handed| + |g.waiting| == |f.handed| + |f.waiting| && (f.buffers == [] ==> g == f)
    decreases |f.waiting|
  {
    if f.waiting == [] || f.buffers == [] {
    } else {
      DrainCounts(Fifo(f.waiting[1..], f.buffers[1..], f.handed + [Scatter(f.buffers[0], f.waiting[0])]));
    }
  }

  /** The k-th buffer came back with the k-th packet in it, the rest of the packets wait and
      the rest of the buffers are free. */
  predicate Balanced(f: Fifo, pkts: seq<Packet>, bufs: seq<seq<nat>>) {
    var k := |f.handed|;
    && |f.waiting| <= SLOTS
    && k <= |pkts| && f.waiting == pkts[k..]
    && k <= |bufs| && f.buffers == bufs[k..]
    && forall i :: 0 <= i < k ==> f.handed[i] == Scatter(bufs[i], pkts[i])
  }

  lemma {:induction false} DrainBalanced(f: Fifo, pkts: seq<Packet>, bufs: seq<seq<nat>>)
    requires Balanced(f, pkts, bufs)
    ensures Balanced(Drain(f), pkts, bufs)
    decreases |f.waiting|
  {
    if f.waiting == [] || f.buffers == [] {
    } else {
      var k := |f.handed|;
      assert f.waiting[0] == pkts[k] && f.buffers[0] == bufs[k];
      DrainBalanced(Fifo(f.waiting[1..], f.buffers[1..], f.handed + [Scatter(f.buffers[0], f.waiting[0])]), pkts, bufs);
    }
  }

  lemma {:induction false} RunBalanced(ops: seq<Op>)
    ensures Balanced(After(ops), Accepted(ops), Buffers(ops))
    ensures After(ops).waiting == [] || After(ops).buffers == []
  {
    if ops != [] {
      var was, op := ops[..|ops| - 1], ops[|ops| - 1];
      var f := After(was);
      RunBalanced(was);
      assert |f.waiting| < SLOTS <==> |Accepted(was)| < |Buffers(was)| + SLOTS;
      match op {
        case Offered(pkt) =>
          if Accepts(f, pkt) {
            DrainBalanced(f.(waiting := f.waiting + [pkt]), Accepted(was) + [pkt], Buffers(was));
            assert Buffers(ops) == Buffers(was);
          } else {
            assert Accepted(ops) == Accepted(was) && Buffers(ops) == Buffers(was);
          }
        case Supplied(buffers) =>
          DrainBalanced(f.(buffers := f.buffers + buffers), Accepted(was), Buffers(was) + buffers);
          assert Accepted(ops) == Accepted(was);
      }
    }
  }

  /** A packet is taken in if and only if it has at most 556 octets and fewer than 256 wait. */
  lemma AcceptedIff(ops: seq<Op>, pkt: Packet)
    ensures Accepted(ops + [Offered(pkt)])
         == Accepted(ops) + if |pkt| <= 556 && |After(ops).waiting| < 256 then [pkt] else []
  {
    RunBalanced(ops);
    assert (ops + [Offered(pkt)])[..|ops|] == ops;
  }

  /** Over any number of operations, whatever the counters have wrapped to: the guest has
      got the first accepted packets, in order, each whole where its buffer has the room; as
      many as there were buffers, or all; what is accepted and not yet handed over is exactly
      what waits, and at most 256 wait. */
  lemma PacketsInOrder(ops: seq<Op>)
    ensures var f := After(ops); var k := |f.handed|; var pkts := Accepted(ops);
      && k == Min(|pkts|, |Buffers(ops)|) && f.waiting == pkts[k..] && |f.waiting| <= 256
      && (forall i :: 0 <= i < k ==> Concat(f.handed[i]) == pkts[i][..Min(Sum(Buffers(ops)[i]), |pkts[i]|)])
  {
    RunBalanced(ops);
    var f := After(ops);
    forall i | 0 <= i < |f.handed|
      ensures Concat(f.handed[i]) == Accepted(ops)[i][..Min(Sum(Buffers(ops)[i]), |Accepted(ops)[i]|)]
    {
      ScatterFills(Buffers(ops)[i], Accepted(ops)[i]);
    }
  }
}
