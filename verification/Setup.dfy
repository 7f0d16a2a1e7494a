/** Making a connection between two controllers: whom an initiator connects to, when an
    advertiser accepts, and that the two together come to share a connection. */
module Setup {
  import opened Wire
  import opened Lcg
  import opened LinkLayer
  import opened Hci
  import opened Provenance
  import opened Settings
  import PeerLink
  import Duo

  predicate HasIdle(ll: Ll) {
    exists i :: 0 <= i < |ll.conns| && !ll.conns[i].active
  }

  lemma IdleFound(ll: Ll)
    ensures HasIdle(ll) <==> FirstIdle(ll.conns, 0) >= 0
  {
  }

  // ------------------------------------------------------------------ initiating

  /** The PDU is a connectable advertisement that holds its advertiser's address. */
  predicate Invites(pdu: seq<Byte>) {
    |pdu| >= 8 && pdu[1] >= 6 && (pdu[0] % 16 == 0 || pdu[0] % 16 == 1)
  }

  /** The connection with which a step answers, in the first idle slot. */
  ghost predicate Opens(ll: Ll, e: Eff, i: nat, aa: nat, role: nat, peer: Addr, ptype: nat) {
    && i < MAX_CONN && Sized(ll) && Sized(e.ll)
    && !ll.conns[i].active && (forall k :: 0 <= k < i ==> ll.conns[k].active)
    && e.ll.conns == ll.conns[i := LlConn(true, 0x40 + i, aa, role, peer, ptype, false, false)]
    && e.evts == [ConnComplete(0x40 + i, role, ptype, peer)]
  }

  /** The PDU asks its peer for a connection. */
  predicate Asks(pdu: seq<Byte>, itype: nat, inita: Addr, atype: nat, adva: Addr, aa: nat) {
    && |pdu| == 36 && pdu[0] == 5 + 0x40 * (itype % 2) + 0x80 * (atype % 2) && pdu[1] == 34
    && Le(pdu[2..8]) == inita && Le(pdu[8..14]) == adva && Le(pdu[14..18]) == aa
    && pdu[18..] == [0x55, 0x55, 0x55, 0x03, 0, 0, 0x18, 0, 0, 0, 0x2a, 0, 0xff, 0xff, 0xff, 0xff, 0x1f, 0]
  }

  lemma FirstIdleIs(ll: Ll)
    requires Sized(ll) && HasIdle(ll)
    ensures var i := FirstIdle(ll.conns, 0); 0 <= i < MAX_CONN && !ll.conns[i].active && forall k :: 0 <= k < i ==> ll.conns[k].active
  {
    IdleFound(ll);
  }

  lemma InvitationRead(pdu: seq<Byte>)
    requires Invites(pdu)
    ensures |Body(pdu)| >= 6 && Le(Body(pdu)[..6]) == Le(pdu[2..8])
  {
    BodySlice(pdu, 0, 6);
    assert Body(pdu)[..6] == Body(pdu)[0..6] && pdu[2 + 0..2 + 6] == pdu[2..8];
  }

  /** An initiator connects to whom it was told to, and to nobody else: a PDU from the air
      makes it announce a connection as a central if and only if it is a connectable
      advertisement of its target, and a slot is idle. It then sends the target a request
      with a fresh Access Address. */
  lemma InitiatesIff(ll: Ll, hdr: Hdr, pdu: seq<Byte>) returns (i: nat)
    requires Sized(ll) && AddrsFit(ll.regs) && hdr.llType == LL_ADV
    ensures var e := Step(ll, Medium(hdr, pdu)); var aa := AccessAddr(Next(ll.regs.nextAa));
      if Invites(pdu) && ll.regs.mode == Initiating && Le(pdu[2..8]) == ll.regs.initPeer && HasIdle(ll)
      then
        && Opens(ll, e, i, aa, CENTRAL, ll.regs.initPeer, pdu[0] / 64 % 2)
        && |e.pdus| == 1
        && Asks(e.pdus[0].pdu, ll.regs.initOwnType, Self(ll.regs, ll.regs.initOwnType), pdu[0] / 64, ll.regs.initPeer, aa)
        && e.pdus[0].hdr == Hdr(ADV_ACCESS_ADDR, 0, Self(ll.regs, ll.regs.initOwnType), LL_ADV, -40)
      else !Announces(e, CENTRAL)
  {
    i := 0;
    IdleFound(ll);
    if Invites(pdu) {
      InvitationRead(pdu);
      if ll.regs.mode == Initiating && Le(pdu[2..8]) == ll.regs.initPeer && HasIdle(ll) {
        i := FirstIdle(ll.conns, 0);
        FirstIdleIs(ll);
        Initiated(ll, hdr, pdu);
      } else {
        NotInitiated(ll, hdr, pdu);
      }
    } else {
      NotInvited(ll, hdr, pdu);
    }
  }

  lemma Initiated(ll: Ll, hdr: Hdr, pdu: seq<Byte>)
    requires Sized(ll) && AddrsFit(ll.regs) && hdr.llType == LL_ADV && Invites(pdu) && FirstIdle(ll.conns, 0) >= 0
    requires |Body(pdu)| >= 6 && Le(Body(pdu)[..6]) == ll.regs.initPeer && ll.regs.mode == Initiating
    ensures var e := Step(ll, Medium(hdr, pdu)); var aa := AccessAddr(Next(ll.regs.nextAa)); var i := FirstIdle(ll.conns, 0);
      && e.ll.conns == ll.conns[i := LlConn(true, 0x40 + i, aa, CENTRAL, ll.regs.initPeer, pdu[0] / 64 % 2, false, false)]
      && e.evts == [ConnComplete(0x40 + i, CENTRAL, pdu[0] / 64 % 2, ll.regs.initPeer)]
      && |e.pdus| == 1
      && Asks(e.pdus[0].pdu, ll.regs.initOwnType, Self(ll.regs, ll.regs.initOwnType), pdu[0] / 64, ll.regs.initPeer, aa)
      && e.pdus[0].hdr == Hdr(ADV_ACCESS_ADDR, 0, Self(ll.regs, ll.regs.initOwnType), LL_ADV, -40)
  {
    hide Body, Le, Asks, ConnectPdu, AccessAddr, Next;
    var r := ll.regs;
    OwnAddrFits(r, r.initOwnType);
    AccessAddrBelow(Next(r.nextAa));
    ConnectAsks(Self(r, r.initOwnType), r.initOwnType, r.initPeer, pdu[0] / 64, AccessAddr(Next(r.nextAa)));
  }

  lemma ConnectAsks(inita: Addr, itype: nat, adva: Addr, atype: nat, aa: nat)
    requires Below(inita, 6) && Below(adva, 6) && Below(aa, 4)
    ensures Asks(ConnectPdu(inita, itype % 2, adva, atype % 2, aa), itype, inita, atype, adva, aa)
  {
    hide LeBytes;
    ConnectPduFields(inita, itype % 2, adva, atype % 2, aa);
    LeRoundTrip(inita, 6);
    LeRoundTrip(adva, 6);
    LeRoundTrip(aa, 4);
  }

  lemma NotInitiated(ll: Ll, hdr: Hdr, pdu: seq<Byte>)
    requires Sized(ll) && hdr.llType == LL_ADV && Invites(pdu) && |Body(pdu)| >= 6
    requires !(ll.regs.mode == Initiating && Le(Body(pdu)[..6]) == ll.regs.initPeer && FirstIdle(ll.conns, 0) >= 0)
    ensures !Announces(Step(ll, Medium(hdr, pdu)), CENTRAL)
  {
    hide Body, Le, ConnectPdu, ShowPdu, LeBytes, TypeBits;
  }

  lemma NotInvited(ll: Ll, hdr: Hdr, pdu: seq<Byte>)
    requires Sized(ll) && hdr.llType == LL_ADV && !Invites(pdu)
    ensures !Announces(Step(ll, Medium(hdr, pdu)), CENTRAL)
  {
    hide Le, ConnectPdu, ShowPdu, LeBytes, TypeBits;
  }

  // ------------------------------------------------------------- over every run

  lemma {:induction false} LeInjective(x: seq<Byte>, y: seq<Byte>)
    requires |x| == |y| && Le(x) == Le(y)
    ensures x == y
  {
    if x != [] {
      assert Le(x) % 256 == x[0] as int && Le(y) % 256 == y[0] as int;
      LeInjective(x[1..], y[1..]);
      assert x == [x[0]] + x[1..] && y == [y[0]] + y[1..];
    }
  }

  /** Only LE Create Connection makes an initiator. */
  lemma {:induction false} InitiatorWasTold(bdaddr: seq<Byte>, xs: seq<Input>)
    requires |bdaddr| == 6 && After(bdaddr, xs).0.regs.mode == Initiating
    ensures Last(xs, 0x0D, 0x20, 13).Some?
  {
    hide Step, IsCmd, Seed, SaysOn, Announces;
    if xs != [] {
      var n := |xs| - 1;
      StepSwitches(After(bdaddr, xs[..n]).0, xs[n]);
      if !IsCmd(xs[n], 0x0D, 0x20, 13) {
        InitiatorWasTold(bdaddr, xs[..n]);
      }
    }
  }

  /** Over every run: an initiating controller with an idle slot that hears a connectable
      advertisement announces a connection if and only if the advertiser's six octets are
      those that the last LE Create Connection packet carried; and it is a connection with
      that advertiser. */
  lemma ConnectsToTarget(bdaddr: seq<Byte>, xs: seq<Input>, hdr: Hdr, pdu: seq<Byte>)
    requires |bdaddr| == 6 && hdr.llType == LL_ADV && Invites(pdu)
    requires After(bdaddr, xs).0.regs.mode == Initiating && HasIdle(After(bdaddr, xs).0)
    ensures var e := Step(After(bdaddr, xs).0, Medium(hdr, pdu)); var told := Last(xs, 0x0D, 0x20, 13);
      && told.Some? && |told.value| >= 17
      && (Announces(e, CENTRAL) <==> pdu[2..8] == told.value[10..16])
      && (Announces(e, CENTRAL) ==> e.evts[0].peerAddr == Le(pdu[2..8]))
  {
    hide Step, Le, Last, Opens, Asks;
    var ll := After(bdaddr, xs).0;
    InitiatorWasTold(bdaddr, xs);
    RegistersAreHistory(bdaddr, xs);
    RunAddrsFit(bdaddr, xs);
    var i := InitiatesIff(ll, hdr, pdu);
    var told := Last(xs, 0x0D, 0x20, 13).value;
    assert ll.regs.initPeer == Le(told[10..16]);
    if Le(pdu[2..8]) == Le(told[10..16]) {
      LeInjective(pdu[2..8], told[10..16]);
      OpensAnnounces(ll, Step(ll, Medium(hdr, pdu)), i, AccessAddr(Next(ll.regs.nextAa)), CENTRAL, ll.regs.initPeer, pdu[0] / 64 % 2);
    }
  }

  lemma OpensAnnounces(ll: Ll, e: Eff, i: nat, aa: nat, role: nat, peer: Addr, ptype: nat)
    requires Opens(ll, e, i, aa, role, peer, ptype)
    ensures Announces(e, role) && e.evts[0].peerAddr == peer
  {
  }

  // ------------------------------------------------------------------- accepting

  /** The PDU is a whole request for a connection. */
  predicate Requests(pdu: seq<Byte>) {
    |pdu| >= 36 && pdu[1] >= 34 && pdu[0] % 16 == 5
  }

  /** An advertiser accepts a request from the air if and only if it advertises, the request
      is whole and names its own address, and a slot is idle; the connection then has the
      Access Address and the initiator that the request names. */
  lemma AcceptsIff(ll: Ll, hdr: Hdr, pdu: seq<Byte>) returns (i: nat)
    requires Sized(ll) && hdr.llType == LL_ADV
    ensures var e := Step(ll, Medium(hdr, pdu)); var r := ll.regs;
      if Requests(pdu) && r.advEnabled && Le(pdu[8..14]) == Self(r, r.advOwnType) && HasIdle(ll)
      then Opens(ll, e, i, Le(pdu[14..18]), PERIPHERAL, Le(pdu[2..8]), pdu[0] / 64 % 2) && e.pdus == []
      else !Announces(e, PERIPHERAL)
  {
    i := 0;
    IdleFound(ll);
    if Requests(pdu) {
      RequestRead(pdu);
      if ll.regs.advEnabled && Le(pdu[8..14]) == Self(ll.regs, ll.regs.advOwnType) && HasIdle(ll) {
        i := FirstIdle(ll.conns, 0);
        FirstIdleIs(ll);
        Accepted(ll, hdr, pdu);
      } else {
        NotAccepted(ll, hdr, pdu);
      }
    } else {
      NotRequested(ll, hdr, pdu);
    }
  }

  lemma RequestRead(pdu: seq<Byte>)
    requires Requests(pdu)
    ensures var body := Body(pdu);
      |body| >= 34 && body[..6] == pdu[2..8] && body[6..12] == pdu[8..14] && body[12..16] == pdu[14..18]
  {
    BodySlice(pdu, 0, 6);
    BodySlice(pdu, 6, 12);
    BodySlice(pdu, 12, 16);
    assert Body(pdu)[..6] == Body(pdu)[0..6] && pdu[2 + 0..2 + 6] == pdu[2..8];
  }

  lemma Accepted(ll: Ll, hdr: Hdr, pdu: seq<Byte>)
    requires Sized(ll) && hdr.llType == LL_ADV && Requests(pdu) && FirstIdle(ll.conns, 0) >= 0
    requires var body := Body(pdu);
      |body| >= 34 && body[..6] == pdu[2..8] && body[6..12] == pdu[8..14] && body[12..16] == pdu[14..18]
    requires ll.regs.advEnabled && Le(pdu[8..14]) == Self(ll.regs, ll.regs.advOwnType)
    ensures var e := Step(ll, Medium(hdr, pdu)); var i := FirstIdle(ll.conns, 0);
      && e.ll.conns == ll.conns[i := LlConn(true, 0x40 + i, Le(pdu[14..18]), PERIPHERAL, Le(pdu[2..8]), pdu[0] / 64 % 2, false, false)]
      && e.evts == [ConnComplete(0x40 + i, PERIPHERAL, pdu[0] / 64 % 2, Le(pdu[2..8]))] && e.pdus == []
  {
    hide Body, Le, ConnectPdu, ShowPdu, LeBytes, TypeBits;
  }

  lemma NotAccepted(ll: Ll, hdr: Hdr, pdu: seq<Byte>)
    requires Sized(ll) && hdr.llType == LL_ADV && Requests(pdu)
    requires var body := Body(pdu); |body| >= 34 && body[6..12] == pdu[8..14]
    requires !(ll.regs.advEnabled && Le(pdu[8..14]) == Self(ll.regs, ll.regs.advOwnType) && FirstIdle(ll.conns, 0) >= 0)
    ensures !Announces(Step(ll, Medium(hdr, pdu)), PERIPHERAL)
  {
    hide Body, Le, ConnectPdu, ShowPdu, LeBytes, TypeBits;
  }

  lemma NotRequested(ll: Ll, hdr: Hdr, pdu: seq<Byte>)
    requires Sized(ll) && hdr.llType == LL_ADV && !Requests(pdu)
    ensures !Announces(Step(ll, Medium(hdr, pdu)), PERIPHERAL)
  {
    hide Le, ConnectPdu, ShowPdu, LeBytes, TypeBits;
  }

  // -------------------------------------------------------------- both together

  /** An end that has just got a connection, and nothing has happened on it. */
  function NewEnd(ll: Ll): Duo.End {
    Duo.End(ll, false, 0, [], [], 0, 0)
  }

  /** No live connection has this Access Address. */
  predicate Unused(ll: Ll, aa: nat) {
    forall i :: 0 <= i < |ll.conns| ==> !PeerLink.OnAa(ll.conns[i], aa)
  }

  lemma OpensUp(ll: Ll, e: Eff, i: nat, aa: nat, role: nat, peer: Addr, ptype: nat)
    requires HandlesAreSlots(ll) && Opens(ll, e, i, aa, role, peer, ptype) && Unused(ll, aa)
    ensures Duo.EndOk(aa, NewEnd(e.ll)) && PeerLink.Up(e.ll, aa) && PeerLink.Slot(e.ll, aa) == i
    ensures e.ll.conns[i].peerAddr == peer && e.ll.conns[i].role == role
  {
    var conns := e.ll.conns;
    assert forall k :: 0 <= k < MAX_CONN ==> (PeerLink.OnAa(conns[k], aa) <==> k == i);
    assert PeerLink.OnAa(conns[i], aa);
  }

  /** The step of the initiator that hears the advertiser, and of the advertiser that hears
      the request. */
  ghost predicate Meeting(a: Ll, b: Ll, now: nat, heard: Hdr, asked: Hdr, e: Eff, f: Eff)
    requires Sized(a) && Sized(b)
  {
    var tick := Step(a, Clock(now));
    && heard.llType == LL_ADV && asked.llType == LL_ADV
    && tick.pdus != [] && e == Step(b, Medium(heard, tick.pdus[0].pdu))
    && e.pdus != [] && f == Step(tick.ll, Medium(asked, e.pdus[0].pdu))
  }

  /** What two controllers need to connect: the one advertises, connectably, and is due; the
      other initiates, to that one's address; both have room, and neither uses the Access
      Address that the other draws. */
  ghost predicate MayMeet(a: Ll, b: Ll, now: nat) {
    && HandlesAreSlots(a) && HandlesAreSlots(b) && AddrsFit(a.regs) && AddrsFit(b.regs)
    && IsDue(a.regs, now) && Kind(a.regs.advType) == 0 && HasIdle(a)
    && b.regs.mode == Initiating && b.regs.initPeer == Self(a.regs, a.regs.advOwnType) && HasIdle(b)
    && var aa := AccessAddr(Next(b.regs.nextAa)); Unused(a, aa) && Unused(b, aa)
  }

  /** They then share a new connection: up at both ends, on one Access Address, each with the
      other's address, as everything about links assumes one to begin. */
  lemma TheyConnect(a: Ll, b: Ll, now: nat, heard: Hdr, asked: Hdr) returns (e: Eff, f: Eff)
    requires MayMeet(a, b, now) && heard.llType == LL_ADV && asked.llType == LL_ADV
    ensures Meeting(a, b, now, heard, asked, e, f)
    ensures var aa := AccessAddr(Next(b.regs.nextAa));
      && Duo.Begins(aa, Duo.Pair(NewEnd(f.ll), NewEnd(e.ll), [], [], false, false))
      && f.ll.conns[PeerLink.Slot(f.ll, aa)].peerAddr == Self(b.regs, b.regs.initOwnType)
      && e.ll.conns[PeerLink.Slot(e.ll, aa)].peerAddr == Self(a.regs, a.regs.advOwnType)
      && f.ll.conns[PeerLink.Slot(f.ll, aa)].role == PERIPHERAL && e.ll.conns[PeerLink.Slot(e.ll, aa)].role == CENTRAL
  {
    hide Step, Le, Shows, Opens, Asks, AccessAddr, Next, Duo.EndOk, PeerLink.Up, PeerLink.Slot, Unused;
    var aa, own := AccessAddr(Next(b.regs.nextAa)), Self(a.regs, a.regs.advOwnType);
    TickShows(a, now);
    var tick := Step(a, Clock(now));
    var adv := tick.pdus[0].pdu;
    ShownInvites(adv, a.regs.advOwnType, own, a.regs.advData);
    var i := InitiatesIff(b, heard, adv);
    e := Step(b, Medium(heard, adv));
    OpensUp(b, e, i, aa, CENTRAL, own, adv[0] / 64 % 2);
    var req := e.pdus[0].pdu;
    AsksRequests(req, b.regs.initOwnType, Self(b.regs, b.regs.initOwnType), adv[0] / 64, own, aa);
    var j := AcceptsIff(tick.ll, asked, req);
    f := Step(tick.ll, Medium(asked, req));
    SameTable(a, tick.ll, aa);
    OpensUp(tick.ll, f, j, aa, PERIPHERAL, Self(b.regs, b.regs.initOwnType), req[0] / 64 % 2);
  }

  lemma SameTable(a: Ll, b: Ll, aa: nat)
    requires a.conns == b.conns && Unused(a, aa)
    ensures Unused(b, aa)
  {
  }

  lemma ShownInvites(pdu: seq<Byte>, atype: nat, addr: Addr, data: AdOctets)
    requires Shows(pdu, 0, atype, addr, data)
    ensures Invites(pdu) && Le(pdu[2..8]) == addr
  {
    hide Le;
  }

  lemma AsksRequests(pdu: seq<Byte>, itype: nat, inita: Addr, atype: nat, adva: Addr, aa: nat)
    requires Asks(pdu, itype, inita, atype, adva, aa)
    ensures Requests(pdu) && Le(pdu[2..8]) == inita && Le(pdu[8..14]) == adva && Le(pdu[14..18]) == aa
  {
    hide Le;
  }

  // --------------------------------------------------------------- from the start

  /** LE Set Advertising Enable, on. */
  const ADVERTISE: seq<Byte> := [1, 0x0A, 0x20, 1, 1]

  /** LE Create Connection to the device with these address octets. */
  function CreateTo(peer: seq<Byte>): (pkt: seq<Byte>)
    requires |peer| == 6
    ensures |pkt| == 29 && pkt[10..16] == peer
  {
    [1, 0x0D, 0x20, 25, 0x60, 0, 0x30, 0, 0, 0] + peer + [0, 0x18, 0, 0x28, 0, 0, 0, 0x2a, 0, 0, 0, 0, 0]
  }

  /** Two fresh controllers, one told to advertise and the other to connect to the first's
      address: the first advertisement heard and the request that comes back make a
      connection. */
  lemma FreshControllersConnect(x: seq<Byte>, y: seq<Byte>, now: nat, heard: Hdr, asked: Hdr) returns (e: Eff, f: Eff)
    requires |x| == 6 && |y| == 6 && heard.llType == LL_ADV && asked.llType == LL_ADV
    ensures var a, b := After(x, [Host(ADVERTISE)]).0, After(y, [Host(CreateTo(x))]).0;
      var aa := AccessAddr(Next(Seed(y, 6)));
      && Meeting(a, b, now, heard, asked, e, f)
      && Duo.Begins(aa, Duo.Pair(NewEnd(f.ll), NewEnd(e.ll), [], [], false, false))
      && f.ll.conns[PeerLink.Slot(f.ll, aa)].peerAddr == Le(y) && e.ll.conns[PeerLink.Slot(e.ll, aa)].peerAddr == Le(x)
  {
    hide Le, Step, Seed, AccessAddr, Next, Meeting, Duo.Begins, PeerLink.Slot;
    var a, b := After(x, [Host(ADVERTISE)]).0, After(y, [Host(CreateTo(x))]).0;
    FreshAdvertiser(x);
    FreshInitiator(y, x);
    e, f := TheyConnect(a, b, now, heard, asked);
  }

  lemma FirstStep(bdaddr: seq<Byte>, input: Input)
    requires |bdaddr| == 6
    ensures After(bdaddr, [input]).0 == Step(New(bdaddr), input).ll
  {
    hide Step, Seed;
    assert [input][..0] == [];
  }

  lemma FreshAdvertiser(x: seq<Byte>)
    requires |x| == 6
    ensures var a := After(x, [Host(ADVERTISE)]).0;
      && HandlesAreSlots(a) && AddrsFit(a.regs) && a.regs.advEnabled && a.regs.lastAdv == 0 && Kind(a.regs.advType) == 0
      && Self(a.regs, a.regs.advOwnType) == Le(x) && HasIdle(a) && forall aa :: Unused(a, aa)
  {
    hide Le, Seed;
    var a := After(x, [Host(ADVERTISE)]).0;
    FirstStep(x, Host(ADVERTISE));
    RunAddrsFit(x, [Host(ADVERTISE)]);
    assert Params(ADVERTISE) == [1];
    assert a.conns == New(x).conns;
    assert !a.conns[0].active;
  }

  lemma FreshInitiator(y: seq<Byte>, x: seq<Byte>)
    requires |x| == 6 && |y| == 6
    ensures var b := After(y, [Host(CreateTo(x))]).0;
      && HandlesAreSlots(b) && AddrsFit(b.regs) && b.regs.mode == Initiating && b.regs.initPeer == Le(x)
      && Self(b.regs, b.regs.initOwnType) == Le(y) && HasIdle(b) && b.regs.nextAa == Seed(y, 6) && forall aa :: Unused(b, aa)
  {
    hide Le, Seed, Step, IsCmd, CreateTo, SaysOn, Announces;
    var pkt, ll := CreateTo(x), New(y);
    var b := After(y, [Host(pkt)]).0;
    FirstStep(y, Host(pkt));
    RunAddrsFit(y, [Host(pkt)]);
    CreateOctets(x);
    StepMoves(ll, Host(pkt));
    CreateStep(ll, pkt);
    assert !b.conns[0].active;
  }

  lemma CreateOctets(x: seq<Byte>)
    requires |x| == 6
    ensures var pkt := CreateTo(x);
      && |pkt| == 29 && pkt[10..16] == x && pkt[16] == 0
      && IsCmd(Host(pkt), 0x0D, 0x20, 13) && !IsCmd(Host(pkt), 0x05, 0x20, 6)
  {
    var pkt := CreateTo(x);
    assert pkt[16] == [0, 0x18, 0, 0x28, 0, 0, 0, 0x2a, 0, 0, 0, 0, 0][0];
  }

  lemma CreateStep(ll: Ll, pkt: seq<Byte>)
    requires Sized(ll) && IsCmd(Host(pkt), 0x0D, 0x20, 13)
    ensures var t := Step(ll, Host(pkt)).ll; t.conns == ll.conns && t.regs.nextAa == ll.regs.nextAa && t.regs.mode == Initiating
  {
    hide Le, Params;
    ParamsAre(pkt);
  }
}
