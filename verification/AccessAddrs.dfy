/** The Access Addresses that one controller makes up over a run. */
module AccessAddrs {
  import opened Wire
  import opened Lcg
  import opened LinkLayer
  import opened Hci

  // -------------------------------------------------------------------- draws

  predicate IsRand(x: Input) {
    x.Host? && |x.pkt| >= 4 && x.pkt[0] == CMD_PKT && U16(x.pkt, 1) == OP_RAND
  }

  /** The slot in which a step makes a connection as a central; -1 for any other step. */
  function MadeSlot(ll: Ll, x: Input): int
    requires Sized(ll)
  {
    var o := OpenedSlot(ll, x);
    if o >= 0 && Step(ll, x).evts[0].role == CENTRAL then o else -1
  }

  /** How often a step uses the generator: once for a connection, twice for LE Rand. */
  function DrawsIn(ll: Ll, x: Input): nat
    requires Sized(ll)
  {
    if IsRand(x) then 2 else if MadeSlot(ll, x) >= 0 then 1 else 0
  }

  /** A live connection that this controller made as a central. */
  predicate Central(ll: Ll, s: nat) {
    s < |ll.conns| && ll.conns[s].active && ll.conns[s].role == CENTRAL
  }

  lemma Draws(x: nat)
    ensures Draw(x, 0) == x && Draw(x, 1) == Next(x) && Draw(x, 2) == Next(Next(x))
  {
  }

  /** A step uses the generator as told, and a connection made has the address drawn. */
  ghost predicate DrawsRight(ll: Ll, x: Input)
    requires Sized(ll)
  {
    var e := Step(ll, x); var m := MadeSlot(ll, x);
    && e.ll.regs.nextAa == Draw(ll.regs.nextAa, DrawsIn(ll, x))
    && (0 <= m < MAX_CONN ==> e.ll.conns[m].aa == AccessAddr(e.ll.regs.nextAa))
  }

  lemma CommandDraws(ll: Ll, x: Input)
    requires Sized(ll) && x.Host? && |x.pkt| >= 4 && x.pkt[0] == CMD_PKT
    ensures DrawsRight(ll, x)
  {
    hide Next, Draw, Control, AdParam;
    var op, params := U16(x.pkt, 1), Params(x.pkt);
    Draws(ll.regs.nextAa);
    if op == OP_START_ENCRYPTION || op == OP_LTK_REPLY || op == OP_DISCONNECT {
    } else {
      assert Step(ll, x) == LocalCommand(ll, op, params);
    }
  }

  lemma MediumDraws(ll: Ll, x: Input)
    requires Sized(ll) && x.Medium?
    ensures DrawsRight(ll, x)
  {
    hide Next, Draw, AccessAddr, ConnectPdu, ShowPdu, TypeBits, Le, LeBytes, Control, RandEdiv;
    Draws(ll.regs.nextAa);
  }

  lemma StepDraws(ll: Ll, x: Input)
    requires Sized(ll)
    ensures DrawsRight(ll, x)
  {
    Draws(ll.regs.nextAa);
    match x
    case Host(pkt) => if |pkt| >= 4 && pkt[0] == CMD_PKT { CommandDraws(ll, x); }
    case Medium(hdr, pdu) => MediumDraws(ll, x);
    case Clock(now) =>
  }

  // --------------------------------------------------------------------- runs

  ghost function State(bdaddr: seq<Byte>, xs: seq<Input>): (ll: Ll)
    requires |bdaddr| == 6
    ensures Sized(ll)
  {
    EventsTellTheTable(bdaddr, xs);
    After(bdaddr, xs).0
  }

  /** The draws made over a run. */
  ghost function Drawn(bdaddr: seq<Byte>, xs: seq<Input>): nat
    requires |bdaddr| == 6
  {
    if xs == [] then 0
    else Drawn(bdaddr, xs[..|xs| - 1]) + DrawsIn(State(bdaddr, xs[..|xs| - 1]), xs[|xs| - 1])
  }

  lemma {:induction false} RunDraws(bdaddr: seq<Byte>, xs: seq<Input>)
    requires |bdaddr| == 6
    ensures State(bdaddr, xs).regs.nextAa == Draw(Seed(bdaddr, 6), Drawn(bdaddr, xs))
  {
    hide Step, DrawsIn, Seed;
    if xs != [] {
      var front := xs[..|xs| - 1];
      RunDraws(bdaddr, front);
      StepDraws(State(bdaddr, front), xs[|xs| - 1]);
      DrawAdd(Seed(bdaddr, 6), Drawn(bdaddr, front), DrawsIn(State(bdaddr, front), xs[|xs| - 1]));
    }
  }

  /** Step i of the run made the connection in slot s, as a central. */
  ghost predicate MadeAt(bdaddr: seq<Byte>, xs: seq<Input>, i: nat, s: nat)
    requires |bdaddr| == 6
  {
    i < |xs| && MadeSlot(State(bdaddr, xs[..i]), xs[i]) == s
  }

  /** Every live connection that was made as a central was made by some step of the run, and
      its Access Address is that of the draw then made. */
  lemma {:induction false} MadeBy(bdaddr: seq<Byte>, xs: seq<Input>, s: nat) returns (i: nat)
    requires |bdaddr| == 6 && Central(State(bdaddr, xs), s)
    ensures MadeAt(bdaddr, xs, i, s)
    ensures State(bdaddr, xs).conns[s].aa == AccessAddr(Draw(Seed(bdaddr, 6), Drawn(bdaddr, xs[..i + 1])))
  {
    hide Step, DrawsIn, Seed, AccessAddr;
    if xs == [] {
      assert false;
    } else {
      var k := |xs| - 1;
      var front := xs[..k];
      StepDraws(State(bdaddr, front), xs[k]);
      StepOpens(State(bdaddr, front), xs[k]);
      if MadeSlot(State(bdaddr, front), xs[k]) == s {
        i := k;
        assert xs[..k + 1] == xs;
        RunDraws(bdaddr, xs);
      } else {
        i := MadeBy(bdaddr, front, s);
        assert front[..i] == xs[..i] && front[..i + 1] == xs[..i + 1];
      }
    }
  }

  lemma {:induction false} DrawnGrows(bdaddr: seq<Byte>, xs: seq<Input>, i: nat, j: nat)
    requires |bdaddr| == 6 && i <= j <= |xs|
    ensures Drawn(bdaddr, xs[..i]) <= Drawn(bdaddr, xs[..j])
    ensures i < j && MadeSlot(State(bdaddr, xs[..j - 1]), xs[j - 1]) >= 0 ==> Drawn(bdaddr, xs[..i]) < Drawn(bdaddr, xs[..j])
    decreases j
  {
    hide Step, MadeSlot;
    if i < j {
      DrawnGrows(bdaddr, xs, i, j - 1);
      assert xs[..j][..j - 1] == xs[..j - 1];
    }
  }

  lemma StepMakes(ll: Ll, x: Input, s: nat)
    requires Sized(ll) && MadeSlot(ll, x) == s
    ensures var e := Step(ll, x).ll; Central(e, s) && e.conns[s].aa == AccessAddr(e.regs.nextAa)
  {
    hide Step, AccessAddr, DrawsIn;
    StepDraws(ll, x);
    StepOpens(ll, x);
  }

  /** What is made at step i has the Access Address of the draw then made. */
  lemma MadeAddr(bdaddr: seq<Byte>, xs: seq<Input>, i: nat, s: nat)
    requires |bdaddr| == 6 && MadeAt(bdaddr, xs, i, s)
    ensures Central(State(bdaddr, xs[..i + 1]), s)
    ensures State(bdaddr, xs[..i + 1]).conns[s].aa == AccessAddr(Draw(Seed(bdaddr, 6), Drawn(bdaddr, xs[..i + 1])))
  {
    hide Step, Draw, Drawn, Seed, AccessAddr, MadeSlot;
    assert xs[..i + 1][..i] == xs[..i];
    StepMakes(State(bdaddr, xs[..i]), xs[i], s);
    RunDraws(bdaddr, xs[..i + 1]);
  }

  lemma DrawsApart(bdaddr: seq<Byte>, xs: seq<Input>, i: nat, j: nat, s: nat, t: nat)
    requires |bdaddr| == 6 && MadeAt(bdaddr, xs, i, s) && MadeAt(bdaddr, xs, j, t) && i < j
    ensures var seed := Seed(bdaddr, 6); var a := Drawn(bdaddr, xs[..i + 1]); var b := Drawn(bdaddr, xs[..j + 1]);
      && a < b && !Reserved(AccessAddr(Draw(seed, a))) && !Reserved(AccessAddr(Draw(seed, b)))
      && (b - a < 0x40_0000 ==> AccessAddr(Draw(seed, a)) != AccessAddr(Draw(seed, b)))
  {
    hide Step, MadeSlot, Seed, AccessAddr, Draw;
    var seed := Seed(bdaddr, 6);
    var a, b := Drawn(bdaddr, xs[..i + 1]), Drawn(bdaddr, xs[..j + 1]);
    DrawnGrows(bdaddr, xs, i + 1, j + 1);
    AccessAddrShape(Draw(seed, a));
    AccessAddrShape(Draw(seed, b));
    if AccessAddr(Draw(seed, a)) == AccessAddr(Draw(seed, a + (b - a))) {
      AccessAddrsDistinct(seed, a, b - a);
    }
  }

  /** Two connections made as a central in one run have different Access Addresses, unless
      2^22 draws or more lie between them; and none is reserved. */
  lemma MadeApart(bdaddr: seq<Byte>, xs: seq<Input>, i: nat, j: nat, s: nat, t: nat)
    requires |bdaddr| == 6 && MadeAt(bdaddr, xs, i, s) && MadeAt(bdaddr, xs, j, t) && i < j
    ensures Central(State(bdaddr, xs[..i + 1]), s) && Central(State(bdaddr, xs[..j + 1]), t)
    ensures var x, y := State(bdaddr, xs[..i + 1]).conns[s].aa, State(bdaddr, xs[..j + 1]).conns[t].aa;
      && !Reserved(x) && !Reserved(y)
      && (Drawn(bdaddr, xs[..j + 1]) - Drawn(bdaddr, xs[..i + 1]) < 0x40_0000 ==> x != y)
  {
    hide State, Drawn, MadeSlot, Seed, AccessAddr, Draw;
    MadeAddr(bdaddr, xs, i, s);
    MadeAddr(bdaddr, xs, j, t);
    DrawsApart(bdaddr, xs, i, j, s, t);
  }

  /** Over every run: no live connection that a controller made as a central has a reserved
      Access Address, and any two such connections have different ones, unless the
      controller has used its generator 2^22 times or more between making them. */
  lemma LiveAddrsDistinct(bdaddr: seq<Byte>, xs: seq<Input>, s: nat, t: nat) returns (i: nat, j: nat)
    requires |bdaddr| == 6 && Central(State(bdaddr, xs), s) && Central(State(bdaddr, xs), t) && s != t
    ensures MadeAt(bdaddr, xs, i, s) && MadeAt(bdaddr, xs, j, t) && i != j
    ensures var ll := State(bdaddr, xs);
      !Reserved(ll.conns[s].aa) && !Reserved(ll.conns[t].aa)
    ensures var ll := State(bdaddr, xs); var a := Drawn(bdaddr, xs[..i + 1]); var b := Drawn(bdaddr, xs[..j + 1]);
      -0x40_0000 < b - a < 0x40_0000 ==> ll.conns[s].aa != ll.conns[t].aa
  {
    hide State, Drawn, MadeSlot, Seed, AccessAddr, Draw;
    i := MadeBy(bdaddr, xs, s);
    j := MadeBy(bdaddr, xs, t);
    if i < j {
      DrawsApart(bdaddr, xs, i, j, s, t);
    } else if j < i {
      DrawsApart(bdaddr, xs, j, i, t, s);
    }
  }

  // ------------------------------------------------------------- two controllers

  /** The seeds of two addresses differ in their low k bits from octet to octet as the
      octets do, times 33. */
  lemma SeedStep(x: seq<Byte>, y: seq<Byte>, i: nat, k: nat)
    requires |x| == |y| && i < |x| && k <= 32
    ensures Halves(k, Seed(x, i + 1) - Seed(y, i + 1))
       <==> Halves(k, 33 * (Seed(x, i) - Seed(y, i)) + (x[i] as int - y[i] as int))
  {
    var a, b := Seed(x, i) * 33 + x[i] as int, Seed(y, i) * 33 + y[i] as int;
    ReducedDifference(k, a, b);
    assert a - b == 33 * (Seed(x, i) - Seed(y, i)) + (x[i] as int - y[i] as int);
  }

  lemma {:induction false} SamePrefixSeed(x: seq<Byte>, y: seq<Byte>, i: nat)
    requires i <= |x| && i <= |y| && x[..i] == y[..i]
    ensures Seed(x, i) == Seed(y, i)
  {
    if i > 0 {
      assert x[..i - 1] == x[..i][..i - 1] && y[..i - 1] == y[..i][..i - 1] && x[i - 1] == x[..i][i - 1] && y[i - 1] == y[..i][i - 1];
      SamePrefixSeed(x, y, i - 1);
    }
  }

  lemma SmallNotHalved(d: int)
    requires -256 < d < 256 && d != 0
    ensures !Halves(22, d)
  {
    Pow2Of32();
    HalvesIsMod(22, d);
  }

  /** Addresses that differ in octet p only have seeds that differ in their low 22 bits. */
  lemma {:induction false} SeedsApart(x: seq<Byte>, y: seq<Byte>, p: nat, i: nat)
    requires |x| == |y| && p < i <= |x| && x[p] != y[p] && forall q :: 0 <= q < |x| && q != p ==> x[q] == y[q]
    ensures !Halves(22, Seed(x, i) - Seed(y, i))
  {
    hide Seed;
    SeedStep(x, y, i - 1, 22);
    if i == p + 1 {
      assert x[..p] == y[..p];
      SamePrefixSeed(x, y, p);
      SmallNotHalved(x[p] as int - y[p] as int);
    } else {
      SeedsApart(x, y, p, i - 1);
      var d := Seed(x, i - 1) - Seed(y, i - 1);
      OddCofactor(22, d, 33);
      assert 33 * d + (x[i - 1] as int - y[i - 1] as int) == d * 33;
    }
  }

  /** Two controllers whose addresses differ in one octet draw different Access Addresses
      whenever they have drawn equally often. */
  lemma NeighboursDiffer(x: seq<Byte>, y: seq<Byte>, p: nat, n: nat)
    requires |x| == 6 && |y| == 6 && p < 6 && x[p] != y[p] && forall q :: 0 <= q < 6 && q != p ==> x[q] == y[q]
    ensures AccessAddr(Draw(Seed(x, 6), n)) != AccessAddr(Draw(Seed(y, 6), n))
  {
    hide Seed, Draw, AccessAddr;
    SeedsApart(x, y, p, 6);
    Pow2Of32();
    RemainderIff(22, Seed(x, 6), Seed(y, 6));
    DrawsAgreeIff(Seed(x, 6), Seed(y, 6), n, 22);
    AccessAddrShape(Draw(Seed(x, 6), n));
    AccessAddrShape(Draw(Seed(y, 6), n));
  }

  /** The octets of an address read as digits to the base 33. */
  function Base33(x: seq<Byte>, i: nat): nat
    requires i <= |x|
  {
    if i == 0 then 0 else 33 * Base33(x, i - 1) + x[i - 1]
  }

  lemma {:induction false} SeedsHalve(x: seq<Byte>, y: seq<Byte>, i: nat, k: nat)
    requires |x| == |y| && i <= |x| && k <= 32
    ensures Halves(k, (Seed(x, i) - Seed(y, i)) - (Base33(x, i) - Base33(y, i)))
  {
    hide Seed;
    if i == 0 {
      assert Seed(x, 0) == Seed(y, 0) by { SeedStarts(x, y); }
      HalvesZero(k);
    } else {
      SeedsHalve(x, y, i - 1, k);
      var d, e := Seed(x, i - 1) - Seed(y, i - 1), Base33(x, i - 1) - Base33(y, i - 1);
      var o := x[i - 1] as int - y[i - 1] as int;
      SeedGap(x, y, i - 1, k);
      OddCofactor(k, d - e, 33);
      var a, b := Seed(x, i) - Seed(y, i), Base33(x, i) - Base33(y, i);
      assert b == 33 * e + o;
      HalvesSum(k, a - (33 * d + o), (d - e) * 33);
      assert a - b == (a - (33 * d + o)) + (d - e) * 33;
    }
  }

  lemma SeedStarts(x: seq<Byte>, y: seq<Byte>)
    ensures Seed(x, 0) == Seed(y, 0)
  {
  }

  lemma {:induction false} HalvesZero(k: nat)
    ensures Halves(k, 0)
  {
    if k > 0 {
      HalvesZero(k - 1);
    }
  }

  lemma SeedGap(x: seq<Byte>, y: seq<Byte>, i: nat, k: nat)
    requires |x| == |y| && i < |x| && k <= 32
    ensures Halves(k, (Seed(x, i + 1) - Seed(y, i + 1)) - (33 * (Seed(x, i) - Seed(y, i)) + (x[i] as int - y[i] as int)))
  {
    var a, b := Seed(x, i) * 33 + x[i] as int, Seed(y, i) * 33 + y[i] as int;
    var q := b / MODULUS - a / MODULUS;
    Pow2Of32();
    HalvesMultiple(32, q, MODULUS * q);
    HalvesFewer(k, 32, MODULUS * q);
    assert a % MODULUS - b % MODULUS - (a - b) == MODULUS * q;
  }

  /** When two controllers collide: having drawn equally often they agree in their low k bits
      if and only if their addresses, read to the base 33, differ by a multiple of 2^k. */
  lemma DrawsCollideIff(x: seq<Byte>, y: seq<Byte>, n: nat, k: nat)
    requires |x| == 6 && |y| == 6 && k <= 32
    ensures Draw(Seed(x, 6), n) % Pow2(k) == Draw(Seed(y, 6), n) % Pow2(k)
       <==> (Base33(x, 6) - Base33(y, 6)) % Pow2(k) == 0
  {
    hide Seed, Draw, Base33;
    var d, e := Seed(x, 6) - Seed(y, 6), Base33(x, 6) - Base33(y, 6);
    DrawsAgreeIff(Seed(x, 6), Seed(y, 6), n, k);
    RemainderIff(k, Seed(x, 6), Seed(y, 6));
    SeedsHalve(x, y, 6, k);
    HalvesSum(k, d - e, e);
    HalvesIsMod(k, e);
  }

  /** Addresses that differ in two octets need not: with these two, all draws are the same. */
  lemma SameSeed(n: nat)
    ensures Draw(Seed([0, 0, 0, 0, 0, 33], 6), n) == Draw(Seed([0, 0, 0, 0, 1, 0], 6), n)
  {
    hide Draw;
    var x, y := [0, 0, 0, 0, 0, 33], [0, 0, 0, 0, 1, 0];
    assert x[..4] == y[..4];
    SamePrefixSeed(x, y, 4);
    SeedTwo(Seed(x, 4));
    assert Seed(x, 5) == (Seed(x, 4) * 33 + 0) % MODULUS && Seed(x, 6) == (Seed(x, 5) * 33 + 33) % MODULUS;
    assert Seed(y, 5) == (Seed(y, 4) * 33 + 1) % MODULUS && Seed(y, 6) == (Seed(y, 5) * 33 + 0) % MODULUS;
  }

  lemma SeedTwo(z: nat)
    ensures ((z * 33 + 0) % MODULUS * 33 + 33) % MODULUS == ((z * 33 + 1) % MODULUS * 33 + 0) % MODULUS
  {
    var a, b := z * 33, z * 33 + 1;
    var c, d := a % MODULUS * 33 + 33, b % MODULUS * 33;
    SameRemainder(MODULUS, c, d);
    var q := b / MODULUS - a / MODULUS;
    assert c - d == MODULUS * (33 * q);
    QuotRem(c - d, MODULUS, 33 * q, 0);
  }
}
