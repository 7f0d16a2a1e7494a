/** Any number of controllers on an advertising channel that may lose, repeat, delay and
    reorder PDUs at will, but not make them up. Where connections come from. */
module Provenance {
  import opened Wire
  import opened Lcg
  import opened LinkLayer
  import opened Hci

  // --------------------------------------------------------- octets round trip

  /** n fits k octets. */
  predicate Below(n: nat, k: nat) {
    if k == 0 then n == 0 else Below(n / 256, k - 1)
  }

  lemma {:induction false} LeRoundTrip(n: nat, k: nat)
    requires Below(n, k)
    ensures Le(LeBytes(n, k)) == n
  {
    if k > 0 {
      LeRoundTrip(n / 256, k - 1);
      assert LeBytes(n, k)[1..] == LeBytes(n / 256, k - 1);
    }
  }

  /** Six octets spell their number with the first one lowest. */
  lemma LeSpells(b: seq<Byte>)
    requires |b| == 6
    ensures Le(b) == b[0] as int + 0x100 * (b[1] as int) + 0x1_0000 * (b[2] as int) + 0x100_0000 * (b[3] as int)
                     + 0x1_0000_0000 * (b[4] as int) + 0x100_0000_0000 * (b[5] as int)
  {
    var c, d, e, f, g := b[1..], b[2..], b[3..], b[4..], b[5..];
    assert c[1..] == d && d[1..] == e && e[1..] == f && f[1..] == g && g[1..] == [];
    assert Le(g) == b[5] as int;
    assert Le(f) == b[4] as int + 256 * Le(g);
    assert Le(e) == b[3] as int + 256 * Le(f);
    assert Le(d) == b[2] as int + 256 * Le(e);
    assert Le(c) == b[1] as int + 256 * Le(d);
  }

  lemma {:induction false} LeBelow(b: seq<Byte>)
    ensures Below(Le(b), |b|)
  {
    if b != [] {
      LeBelow(b[1..]);
      assert Le(b) / 256 == Le(b[1..]);
    }
  }

  lemma FitsFour(n: nat)
    requires n < 0x1_0000_0000
    ensures Below(n, 4)
  {
    var a := n / 256;
    var b := a / 256;
    var c := b / 256;
    assert c / 256 == 0;
    assert Below(c, 1);
    assert Below(b, 2);
    assert Below(a, 3);
  }

  lemma AccessAddrBelow(r: nat)
    ensures Below(AccessAddr(r), 4)
  {
    hide AccessAddr, Below;
    AccessAddrShape(r);
    FitsFour(AccessAddr(r));
  }

  /** A CONNECT_IND survives the wire: the peripheral and the hub both read back the two
      addresses and the Access Address that the central put in. */
  lemma ConnectPduRoundTrip(inita: Addr, itype: nat, adva: Addr, atype: nat, aa: nat)
    requires Below(inita, 6) && Below(adva, 6) && Below(aa, 4)
    ensures var pdu := ConnectPdu(inita, itype, adva, atype, aa); var body := Body(pdu);
      && |body| == 34 && Le(body[..6]) == inita && Le(body[6..12]) == adva && Le(body[12..16]) == aa
      && IsConnectInd(pdu) && ParseConnectInd(pdu) == Some(ConnectInd(inita, adva, aa))
  {
    LeRoundTrip(inita, 6);
    LeRoundTrip(adva, 6);
    LeRoundTrip(aa, 4);
    ConnectPduFields(inita, itype, adva, atype, aa);
  }

  lemma ConnectPduFields(inita: Addr, itype: nat, adva: Addr, atype: nat, aa: nat)
    ensures var pdu := ConnectPdu(inita, itype, adva, atype, aa); var body := Body(pdu);
      && pdu[0] % 16 == CONNECT_IND
      && |body| == 34
      && body[..6] == pdu[2..8] == LeBytes(inita, 6)
      && body[6..12] == pdu[8..14] == LeBytes(adva, 6)
      && body[12..16] == pdu[14..18] == LeBytes(aa, 4)
  {
    hide LeBytes;
    var i, v, x := LeBytes(inita, 6), LeBytes(adva, 6), LeBytes(aa, 4);
    var head := [TypeBits(CONNECT_IND, itype, atype), 34];
    var pdu := ConnectPdu(inita, itype, adva, atype, aa);
    var tail: seq<Byte> := [0x55, 0x55, 0x55, 3, 0, 0, 0x18, 0, 0, 0, 0x2a, 0, 0xff, 0xff, 0xff, 0xff, 0x1f, 0];
    assert pdu == head + i + v + x + tail;
    Fields(head, i, v, x, tail);
    BodySlices(pdu);
  }

  lemma BodySlices(pdu: seq<Byte>)
    requires |pdu| == 36 && pdu[1] == 34
    ensures var body := Body(pdu);
      |body| == 34 && body[..6] == pdu[2..8] && body[6..12] == pdu[8..14] && body[12..16] == pdu[14..18]
  {
    assert Body(pdu) == pdu[2..36];
  }

  lemma Fields(head: seq<Byte>, i: seq<Byte>, v: seq<Byte>, x: seq<Byte>, tail: seq<Byte>)
    requires |head| == 2 && |i| == 6 && |v| == 6 && |x| == 4
    ensures var p := head + i + v + x + tail; p[2..8] == i && p[8..14] == v && p[14..18] == x
  {
  }

  // ------------------------------------------------------------------ the world

  /** A connection as one of its ends made it: Access Address, initiator, advertiser. */
  datatype Link = Link(aa: nat, inita: Addr, adva: Addr)

  /** A controller, how often its host has enabled advertising, and how many connections it
      has accepted as a peripheral. */
  datatype Node = Node(ll: Ll, enables: nat, accepted: nat)

  /** All the controllers, every frame ever sent, every connection ever made by a central
      and every connection ever accepted by a peripheral. */
  datatype World = World(nodes: seq<Node>, air: set<Sent>, made: set<Link>, taken: set<Link>)

  predicate EnablesAdvertising(x: Input) {
    && x.Host? && |x.pkt| >= 4 && x.pkt[0] == CMD_PKT
    && U16(x.pkt, 1) == OP_SET_ADV_ENABLE && On(Params(x.pkt))
  }

  /** The link that a step's connection event announces, told by the slot it used. */
  function Announced(ll: Ll, e: Eff, role: nat): set<Link>
    requires Sized(e.ll)
  {
    if e.evts != [] && e.evts[0].ConnComplete? && e.evts[0].role == role
       && BASE_HANDLE <= e.evts[0].handle < BASE_HANDLE + MAX_CONN then
      var c := e.ll.conns[e.evts[0].handle - BASE_HANDLE];
      {if role == CENTRAL then Link(c.aa, OwnAddr(ll.regs, ll.regs.initOwnType), c.peerAddr)
       else Link(c.aa, c.peerAddr, OwnAddr(ll.regs, ll.regs.advOwnType))}
    else {}
  }

  /** What controller c may be given next: anything from its host or clock, and from the
      medium any frame ever sent, at whatever RSSI and TTL. */
  predicate MayHear(w: World, x: Input) {
    x.Medium? ==> exists s :: s in w.air && s.pdu == x.pdu && s.hdr.llType == x.hdr.llType && s.hdr.aa == x.hdr.aa
  }

  function Stepped(w: World, c: nat, x: Input): World
    requires c < |w.nodes| && Sized(w.nodes[c].ll)
  {
    var n := w.nodes[c];
    var e := Step(n.ll, x);
    World(w.nodes[c := Node(e.ll, n.enables + (if EnablesAdvertising(x) then 1 else 0),
                            n.accepted + |Announced(n.ll, e, PERIPHERAL)|)],
          w.air + (set s | s in e.pdus),
          w.made + Announced(n.ll, e, CENTRAL),
          w.taken + Announced(n.ll, e, PERIPHERAL))
  }

  // ---------------------------------------------------------------- invariants

  /** The addresses a controller holds fit six octets. */
  predicate AddrsFit(r: Regs) {
    Below(r.publicAddr, 6) && Below(r.randomAddr, 6) && Below(r.initPeer, 6)
  }

  predicate IsConnectFrame(s: Sent) {
    s.hdr.llType == LL_ADV && |s.pdu| >= 2 && s.pdu[0] % 16 == CONNECT_IND
  }

  ghost predicate FromLink(s: Sent, l: Link) {
    && Below(l.inita, 6) && Below(l.adva, 6) && Below(l.aa, 4)
    && exists it: nat, at: nat :: s.pdu == ConnectPdu(l.inita, it, l.adva, at, l.aa)
  }

  ghost predicate Inv(w: World) {
    && (forall c :: 0 <= c < |w.nodes| ==> NodeOk(w.nodes[c]))
    && (forall s :: s in w.air && IsConnectFrame(s) ==> exists l :: l in w.made && FromLink(s, l))
    && w.taken <= w.made
    && (forall c :: 0 <= c < |w.nodes| ==> Tabled(w.nodes[c].ll, w.made, w.taken))
  }

  /** The table entry is one end of a link that a central made, and if it is a peripheral's,
      of one that was accepted. */
  ghost predicate Ended(c: LlConn, made: set<Link>, taken: set<Link>) {
    if c.role == CENTRAL then exists l :: l in made && l.aa == c.aa && l.adva == c.peerAddr
    else exists l :: l in taken && l.aa == c.aa && l.inita == c.peerAddr
  }

  ghost predicate Tabled(ll: Ll, made: set<Link>, taken: set<Link>) {
    forall s :: 0 <= s < |ll.conns| && ll.conns[s].active ==> Ended(ll.conns[s], made, taken)
  }

  lemma EndedGrows(c: LlConn, made: set<Link>, taken: set<Link>, made2: set<Link>, taken2: set<Link>)
    requires Ended(c, made, taken) && made <= made2 && taken <= taken2
    ensures Ended(c, made2, taken2)
  {
    if c.role == CENTRAL {
      var l :| l in made && l.aa == c.aa && l.adva == c.peerAddr;
      assert l in made2;
    } else {
      var l :| l in taken && l.aa == c.aa && l.inita == c.peerAddr;
      assert l in taken2;
    }
  }

  /** A step's new entry is the end of the link it announces. */
  lemma StepTabled(ll: Ll, x: Input, made: set<Link>, taken: set<Link>)
    requires Sized(ll) && Tabled(ll, made, taken)
    ensures var e := Step(ll, x);
      Tabled(e.ll, made + Announced(ll, e, CENTRAL), taken + Announced(ll, e, PERIPHERAL))
  {
    hide Step;
    var e := Step(ll, x);
    var made2, taken2 := made + Announced(ll, e, CENTRAL), taken + Announced(ll, e, PERIPHERAL);
    StepOpens(ll, x);
    var o := OpenedSlot(ll, x);
    forall s | 0 <= s < |e.ll.conns| && e.ll.conns[s].active ensures Ended(e.ll.conns[s], made2, taken2) {
      if s == o {
        OpenedEnded(ll, x, made, taken);
      } else {
        assert SameLink(ll.conns[s], e.ll.conns[s]);
        EndedGrows(ll.conns[s], made, taken, made2, taken2);
        SameEnded(ll.conns[s], e.ll.conns[s], made2, taken2);
      }
    }
  }

  lemma SameEnded(c: LlConn, d: LlConn, made: set<Link>, taken: set<Link>)
    requires SameLink(c, d) && Ended(c, made, taken)
    ensures Ended(d, made, taken)
  {
  }

  lemma OpenedEnded(ll: Ll, x: Input, made: set<Link>, taken: set<Link>)
    requires Sized(ll) && OpensOnly(ll, x) && OpenedSlot(ll, x) >= 0
    ensures var e := Step(ll, x);
      Ended(e.ll.conns[OpenedSlot(ll, x)], made + Announced(ll, e, CENTRAL), taken + Announced(ll, e, PERIPHERAL))
  {
    hide Step;
    var e := Step(ll, x);
    var c := e.ll.conns[OpenedSlot(ll, x)];
    if c.role == CENTRAL {
      assert Link(c.aa, OwnAddr(ll.regs, ll.regs.initOwnType), c.peerAddr) in Announced(ll, e, CENTRAL);
    } else {
      assert Link(c.aa, c.peerAddr, OwnAddr(ll.regs, ll.regs.advOwnType)) in Announced(ll, e, PERIPHERAL);
    }
  }

  /** A controller that is advertising has an enable to spare. */
  predicate NodeOk(n: Node) {
    && Sized(n.ll) && AddrsFit(n.ll.regs)
    && n.accepted + (if n.ll.regs.advEnabled then 1 else 0) <= n.enables
  }

  // ----------------------------------------------------------------- each step

  lemma TypeBitsKind(kind: nat, tx: nat, rx: nat)
    requires kind < 16
    ensures TypeBits(kind, tx, rx) % 16 == kind
  {
  }

  /** Host commands, data PDUs and the clock put no CONNECT_IND on the air and open nothing. */
  lemma QuietSteps(ll: Ll, x: Input)
    requires Sized(ll) && !(x.Medium? && x.hdr.llType == LL_ADV)
    ensures var e := Step(ll, x);
      && (forall s :: s in e.pdus ==> !IsConnectFrame(s))
      && Announced(ll, e, CENTRAL) == {} && Announced(ll, e, PERIPHERAL) == {}
      && (e.ll.regs.advEnabled ==> ll.regs.advEnabled || EnablesAdvertising(x))
  {
    match x
    case Host(pkt) =>
      if |pkt| >= 4 && pkt[0] == CMD_PKT {
        QuietCommand(ll, U16(pkt, 1), Params(pkt));
      }
    case Medium(hdr, pdu) =>
    case Clock(now) =>
      TypeBitsKind(ADV_NONCONN_IND, ll.regs.advOwnType % 2, 0);
      TypeBitsKind(ADV_SCAN_IND, ll.regs.advOwnType % 2, 0);
      TypeBitsKind(ADV_IND, ll.regs.advOwnType % 2, 0);
  }

  lemma QuietCommand(ll: Ll, op: nat, params: seq<Byte>)
    requires Sized(ll)
    ensures var e := Perform(ll, op, params);
      && (forall s :: s in e.pdus ==> !IsConnectFrame(s))
      && (e.evts != [] ==> !e.evts[0].ConnComplete?)
      && (e.ll.regs.advEnabled ==> ll.regs.advEnabled || (op == OP_SET_ADV_ENABLE && On(params)))
  {
    if op == OP_START_ENCRYPTION || op == OP_LTK_REPLY || op == OP_DISCONNECT {
    } else {
      assert Perform(ll, op, params) == LocalCommand(ll, op, params);
    }
  }

  lemma AddrsStayFit(ll: Ll, x: Input)
    requires Sized(ll) && AddrsFit(ll.regs)
    ensures AddrsFit(Step(ll, x).ll.regs)
  {
    if x.Host? && |x.pkt| >= 4 && x.pkt[0] == CMD_PKT {
      var params := Params(x.pkt);
      if |params| >= 6 { LeBelow(params[..6]); }
      if |params| >= 13 { LeBelow(params[6..12]); }
      CommandAddrs(ll, U16(x.pkt, 1), params);
    }
  }

  lemma CommandAddrs(ll: Ll, op: nat, params: seq<Byte>)
    requires Sized(ll) && AddrsFit(ll.regs)
    requires |params| >= 6 ==> Below(Le(params[..6]), 6)
    requires |params| >= 13 ==> Below(Le(params[6..12]), 6)
    ensures AddrsFit(Perform(ll, op, params).ll.regs)
  {
    hide Control, AdParam;
    if op == OP_START_ENCRYPTION || op == OP_LTK_REPLY || op == OP_DISCONNECT {
    } else {
      assert Perform(ll, op, params) == LocalCommand(ll, op, params);
    }
  }

  lemma OwnAddrFits(r: Regs, t: nat)
    requires AddrsFit(r)
    ensures Below(OwnAddr(r, t), 6)
  {
  }

  /** An advertisement makes an initiator send the CONNECT_IND of the link it announces; any
      other answer to it is no CONNECT_IND. */
  lemma AdvertisementStep(ll: Ll, hdr: Hdr, kind: nat, txadd: nat, adva: Addr, data: seq<Byte>)
    requires Sized(ll) && AddrsFit(ll.regs) && kind < 16 && Below(adva, 6)
    ensures var e := HearAdvertisement(ll, hdr, kind, txadd, adva, data);
      && (forall s :: s in e.pdus && IsConnectFrame(s) ==> exists l :: l in Announced(ll, e, CENTRAL) && FromLink(s, l))
      && Announced(ll, e, PERIPHERAL) == {}
      && e.ll.regs.advEnabled == ll.regs.advEnabled
  {
    var e := HearAdvertisement(ll, hdr, kind, txadd, adva, data);
    var i := FirstIdle(ll.conns, 0);
    TypeBitsKind(SCAN_REQ, ll.regs.scanOwnType % 2, txadd);
    if ll.regs.mode == Initiating && Connectable(kind) && adva == ll.regs.initPeer && i >= 0 {
      var aa := AccessAddr(Next(ll.regs.nextAa));
      var inita := OwnAddr(ll.regs, ll.regs.initOwnType);
      AccessAddrBelow(Next(ll.regs.nextAa));
      OwnAddrFits(ll.regs, ll.regs.initOwnType);
      var l := Link(aa, inita, adva);
      assert Announced(ll, e, CENTRAL) == {l};
      assert e.pdus[0].pdu == ConnectPdu(l.inita, ll.regs.initOwnType % 2, l.adva, txadd, l.aa);
      assert FromLink(e.pdus[0], l);
    }
  }

  /** A CONNECT_IND made of a link makes a peripheral announce that very link, and stop
      advertising. */
  lemma ConnectStep(ll: Ll, x: Input, l: Link)
    requires Sized(ll) && x.Medium? && x.hdr.llType == LL_ADV && IsConnectFrame(Sent(x.hdr, x.pdu))
    requires FromLink(Sent(x.hdr, x.pdu), l)
    ensures var e := Step(ll, x);
      && e.pdus == [] && Announced(ll, e, CENTRAL) == {}
      && (Announced(ll, e, PERIPHERAL) == {} ==> e.ll.regs.advEnabled == ll.regs.advEnabled)
      && (Announced(ll, e, PERIPHERAL) != {} ==>
            Announced(ll, e, PERIPHERAL) == {l} && ll.regs.advEnabled && !e.ll.regs.advEnabled)
  {
    var it: nat, at: nat :| x.pdu == ConnectPdu(l.inita, it, l.adva, at, l.aa);
    ConnectPduRoundTrip(l.inita, it, l.adva, at, l.aa);
  }

  /** Any other advertising-channel PDU. */
  lemma AirStep(ll: Ll, x: Input)
    requires Sized(ll) && AddrsFit(ll.regs) && x.Medium? && x.hdr.llType == LL_ADV
    requires !IsConnectFrame(Sent(x.hdr, x.pdu))
    ensures var e := Step(ll, x);
      && (forall s :: s in e.pdus && IsConnectFrame(s) ==> exists l :: l in Announced(ll, e, CENTRAL) && FromLink(s, l))
      && Announced(ll, e, PERIPHERAL) == {}
      && e.ll.regs.advEnabled == ll.regs.advEnabled
  {
    if |x.pdu| >= 2 {
      var kind := x.pdu[0] % 16;
      var body := Body(x.pdu);
      if |body| >= 6 {
        LeBelow(body[..6]);
        AdvertisementStep(ll, x.hdr, kind, TxAdd(x.pdu), Le(body[..6]), body[6..]);
      }
      TypeBitsKind(SCAN_RSP, ll.regs.advOwnType % 2, 0);
    }
  }

  /** A step announces as a peripheral only what some central made, pays for it with its
      advertising, and sends only CONNECT_INDs of the link it announces as a central. */
  ghost predicate Sound(ll: Ll, x: Input, made: set<Link>)
    requires Sized(ll)
  {
    var e := Step(ll, x);
    && Announced(ll, e, PERIPHERAL) <= made
    && |Announced(ll, e, PERIPHERAL)| + (if e.ll.regs.advEnabled then 1 else 0)
       <= (if ll.regs.advEnabled then 1 else 0) + (if EnablesAdvertising(x) then 1 else 0)
    && forall s :: s in e.pdus && IsConnectFrame(s) ==> exists l :: l in Announced(ll, e, CENTRAL) && FromLink(s, l)
  }

  lemma HeardConnectSound(ll: Ll, x: Input, w: World)
    requires Inv(w) && MayHear(w, x)
    requires Sized(ll) && x.Medium? && x.hdr.llType == LL_ADV && IsConnectFrame(Sent(x.hdr, x.pdu))
    ensures Sound(ll, x, w.made)
  {
    hide Step, ConnectPdu;
    var s :| s in w.air && s.pdu == x.pdu && s.hdr.llType == x.hdr.llType && s.hdr.aa == x.hdr.aa;
    assert IsConnectFrame(s);
    var l :| l in w.made && FromLink(s, l);
    assert FromLink(Sent(x.hdr, x.pdu), l);
    ConnectStep(ll, x, l);
  }

  lemma StepSound(ll: Ll, x: Input, w: World)
    requires Inv(w) && MayHear(w, x) && Sized(ll) && AddrsFit(ll.regs)
    ensures Sound(ll, x, w.made)
  {
    if !(x.Medium? && x.hdr.llType == LL_ADV) {
      QuietSteps(ll, x);
    } else if IsConnectFrame(Sent(x.hdr, x.pdu)) {
      HeardConnectSound(ll, x, w);
    } else {
      AirStep(ll, x);
    }
  }

  lemma TablesGrow(w: World, c: nat, x: Input)
    requires Inv(w) && c < |w.nodes|
    ensures var r := Stepped(w, c, x); forall i :: 0 <= i < |r.nodes| ==> Tabled(r.nodes[i].ll, r.made, r.taken)
  {
    hide Step;
    var r := Stepped(w, c, x);
    forall i | 0 <= i < |r.nodes| ensures Tabled(r.nodes[i].ll, r.made, r.taken) {
      if i == c {
        StepTabled(w.nodes[c].ll, x, w.made, w.taken);
      } else {
        var ll := w.nodes[i].ll;
        assert Tabled(ll, w.made, w.taken);
        forall s | 0 <= s < |ll.conns| && ll.conns[s].active ensures Ended(ll.conns[s], r.made, r.taken) {
          EndedGrows(ll.conns[s], w.made, w.taken, r.made, r.taken);
        }
      }
    }
  }

  lemma StepKeeps(w: World, c: nat, x: Input)
    requires Inv(w) && c < |w.nodes| && MayHear(w, x)
    ensures Inv(Stepped(w, c, x))
  {
    var r := Stepped(w, c, x);
    var e := Step(w.nodes[c].ll, x);
    StepSound(w.nodes[c].ll, x, w);
    AddrsStayFit(w.nodes[c].ll, x);
    assert NodeOk(r.nodes[c]);
    TablesGrow(w, c, x);
    forall s | s in r.air && IsConnectFrame(s) ensures exists l :: l in r.made && FromLink(s, l) {
      if s in w.air {
        var l :| l in w.made && FromLink(s, l);
        assert l in r.made;
      } else {
        var l :| l in Announced(w.nodes[c].ll, e, CENTRAL) && FromLink(s, l);
        assert l in r.made;
      }
    }
  }

  // ------------------------------------------------------------------------ runs

  /** Fresh controllers on an empty channel. */
  ghost predicate Begins(w: World) {
    && w.air == {} && w.made == {} && w.taken == {}
    && forall c :: 0 <= c < |w.nodes| ==>
         w.nodes[c].accepted == 0 && w.nodes[c].enables == 0
         && exists bdaddr: seq<Byte> :: IsNew(w.nodes[c].ll, bdaddr)
  }

  predicate IsNew(ll: Ll, bdaddr: seq<Byte>) {
    |bdaddr| == 6 && ll == New(bdaddr)
  }

  /** Controller c takes x. */
  predicate Takes(w: World, c: nat, x: Input, r: World) {
    c < |w.nodes| && Sized(w.nodes[c].ll) && MayHear(w, x) && r == Stepped(w, c, x)
  }

  ghost predicate Follows(w: World, r: World) {
    exists c: nat, x: Input :: Takes(w, c, x, r)
  }

  ghost predicate IsRun(ws: seq<World>) {
    ws != [] && Begins(ws[0]) && forall i :: 0 < i < |ws| ==> Follows(ws[i - 1], ws[i])
  }

  lemma BeginsInv(w: World)
    requires Begins(w)
    ensures Inv(w)
  {
    forall c | 0 <= c < |w.nodes| ensures NodeOk(w.nodes[c]) {
      var bdaddr: seq<Byte> :| IsNew(w.nodes[c].ll, bdaddr);
      LeBelow(bdaddr);
      assert Below(0, 6);
    }
    forall c | 0 <= c < |w.nodes| ensures Tabled(w.nodes[c].ll, {}, {}) {
      var bdaddr: seq<Byte> :| IsNew(w.nodes[c].ll, bdaddr);
    }
  }

  lemma {:induction false} RunInv(ws: seq<World>, i: nat)
    requires IsRun(ws) && i < |ws|
    ensures Inv(ws[i])
  {
    if i == 0 {
      BeginsInv(ws[0]);
    } else {
      RunInv(ws, i - 1);
      assert Follows(ws[i - 1], ws[i]);
      var c: nat, x: Input :| Takes(ws[i - 1], c, x, ws[i]);
      StepKeeps(ws[i - 1], c, x);
    }
  }

  /** Over every run of any number of controllers, whatever the channel loses, repeats or
      reorders: every connection that a peripheral accepted was made by a central, with the
      same Access Address and with the two addresses crosswise, and so was every connection
      that is live in a peripheral's table; and no controller has accepted more connections
      than its host has enabled advertising. */
  lemma ConnectionsHaveCentrals(ws: seq<World>, i: nat, c: nat)
    requires IsRun(ws) && i < |ws| && c < |ws[i].nodes|
    ensures ws[i].taken <= ws[i].made
    ensures ws[i].nodes[c].accepted <= ws[i].nodes[c].enables
    ensures var conns := ws[i].nodes[c].ll.conns; forall s :: 0 <= s < |conns| && conns[s].active ==>
      exists l :: l in ws[i].made && l.aa == conns[s].aa
                  && (if conns[s].role == CENTRAL then l.adva else l.inita) == conns[s].peerAddr
  {
    hide IsRun;
    RunInv(ws, i);
    assert NodeOk(ws[i].nodes[c]) && Tabled(ws[i].nodes[c].ll, ws[i].made, ws[i].taken);
    var conns := ws[i].nodes[c].ll.conns;
    forall s | 0 <= s < |conns| && conns[s].active
      ensures exists l :: l in ws[i].made && l.aa == conns[s].aa
                          && (if conns[s].role == CENTRAL then l.adva else l.inita) == conns[s].peerAddr
    {
      assert Ended(conns[s], ws[i].made, ws[i].taken);
    }
  }

  // ------------------------------------------------------------ what advertisers show

  /** What an advertiser's host set is what a scanner's host is told: the PDU of a tick or of
      a scan response is reported with the advertiser's address and its data, octet for
      octet. */
  lemma ShownIsReported(kind: nat, atype: nat, adva: Addr, data: AdOctets)
    requires kind < 16 && atype < 2 && Below(adva, 6)
    ensures var pdu := ShowPdu(kind, atype, adva, data); var body := Body(pdu);
      && |pdu| >= 2 && pdu[0] % 16 == kind && TxAdd(pdu) == atype
      && |body| >= 6 && Le(body[..6]) == adva && body[6..] == data
  {
    var pdu := ShowPdu(kind, atype, adva, data);
    LeRoundTrip(adva, 6);
    assert Body(pdu) == LeBytes(adva, 6) + data;
    assert Body(pdu)[..6] == LeBytes(adva, 6);
  }

  lemma AdvertisementReported(a: Ll, b: Ll, now: nat, hdr: Hdr)
    requires Sized(a) && Sized(b) && AddrsFit(a.regs) && hdr.llType == LL_ADV
    requires Tick(a, now).pdus != [] && b.regs.scanEnabled && b.regs.mode != Initiating
    ensures var r := a.regs; var adva := OwnAddr(r, r.advOwnType);
      Step(b, Medium(hdr, Tick(a, now).pdus[0].pdu)).evts
      == [AdvReport(ReportKind(AdvKind(r.advType)), r.advOwnType % 2, adva, r.advData, hdr.rssi)]
  {
    hide ShowPdu, TypeBits, LeBytes, Le, Body, TxAdd;
    var r := a.regs;
    OwnAddrFits(r, r.advOwnType);
    ShownIsReported(AdvKind(r.advType), r.advOwnType % 2, OwnAddr(r, r.advOwnType), r.advData);
  }
}
