/** Two controllers at the ends of one connection, joined by a medium that delivers the
    connection's data PDUs in order. Everything else may happen in between: other links,
    advertising, any commands of the two hosts. */
module PeerLink {
  import opened Wire
  import opened LinkLayer
  import opened Hci

  // -------------------------------------------------- the link at one controller

  /** The connection with this Access Address is up. */
  predicate Up(ll: Ll, aa: nat) {
    FirstAa(ll.conns, aa, 0) >= 0
  }

  function Slot(ll: Ll, aa: nat): nat
    requires Up(ll, aa)
  {
    FirstAa(ll.conns, aa, 0)
  }

  predicate Encrypted(ll: Ll, aa: nat) {
    Up(ll, aa) && ll.conns[Slot(ll, aa)].encrypted
  }

  predicate OnAa(c: LlConn, aa: nat) {
    c.active && c.aa == aa
  }

  /** No two connections of the controller share the Access Address. */
  predicate Single(ll: Ll, aa: nat) {
    forall i, j :: 0 <= i < |ll.conns| && 0 <= j < |ll.conns| && OnAa(ll.conns[i], aa) && OnAa(ll.conns[j], aa) ==> i == j
  }

  /** The step opens no further connection on the Access Address. */
  predicate NoTwin(ll: Ll, next: Ll, aa: nat) {
    |next.conns| == |ll.conns| &&
    forall i :: 0 <= i < |ll.conns| && OnAa(next.conns[i], aa) ==> OnAa(ll.conns[i], aa)
  }

  lemma SlotIs(ll: Ll, aa: nat, i: nat)
    requires Single(ll, aa) && i < |ll.conns|
    ensures OnAa(ll.conns[i], aa) <==> Up(ll, aa) && Slot(ll, aa) == i
  {
  }

  /** The data PDUs among the frames that belong to the link. */
  function LinkPdus(aa: nat, pdus: seq<Sent>): seq<seq<Byte>> {
    if pdus == [] then []
    else
      var s := pdus[|pdus| - 1];
      LinkPdus(aa, pdus[..|pdus| - 1]) + if s.hdr.llType == LL_DATA && s.hdr.aa == aa then [s.pdu] else []
  }

  /** The opcode of a control PDU, -1 for any other. */
  function OpOf(pdu: seq<Byte>): int {
    if |pdu| >= 3 && pdu[0] % 4 == LLID_CONTROL && pdu[1] >= 1 then pdu[2] else -1
  }

  /** What follows the two header octets, as far as the second of them says. */
  function Content(pdu: seq<Byte>): seq<Byte> {
    if |pdu| < 2 then [] else if pdu[1] < |pdu| - 2 then pdu[2..2 + pdu[1]] else pdu[2..]
  }

  /** The payload a data PDU carries to the host, if any. */
  function PayloadOf(pdu: seq<Byte>): seq<seq<Byte>> {
    if |pdu| >= 2 && (pdu[0] % 4 == 1 || pdu[0] % 4 == 2) && Content(pdu) != [] then [Content(pdu)] else []
  }

  function Payloads(q: seq<seq<Byte>>): seq<seq<Byte>> {
    if q == [] then [] else PayloadOf(q[0]) + Payloads(q[1..])
  }

  lemma PayloadsOne(pdu: seq<Byte>)
    ensures Payloads([pdu]) == PayloadOf(pdu)
  {
    var none: seq<seq<Byte>> := [pdu][1..];
    assert none == [];
  }

  lemma {:induction false} PayloadsConcat(x: seq<seq<Byte>>, y: seq<seq<Byte>>)
    ensures Payloads(x + y) == Payloads(x) + Payloads(y)
  {
    if x == [] {
      assert x + y == y;
    } else {
      assert (x + y)[1..] == x[1..] + y;
      PayloadsConcat(x[1..], y);
    }
  }

  predicate InFlight(q: seq<seq<Byte>>, op: int) {
    exists k :: 0 <= k < |q| && OpOf(q[k]) == op
  }

  lemma InFlightConcat(x: seq<seq<Byte>>, y: seq<seq<Byte>>, op: int)
    ensures InFlight(x + y, op) <==> InFlight(x, op) || InFlight(y, op)
  {
    if InFlight(x, op) {
      var k :| 0 <= k < |x| && OpOf(x[k]) == op;
      assert (x + y)[k] == x[k];
    }
    if InFlight(y, op) {
      var k :| 0 <= k < |y| && OpOf(y[k]) == op;
      assert (x + y)[|x| + k] == y[k];
    }
  }

  lemma InFlightTail(q: seq<seq<Byte>>, op: int)
    requires q != []
    ensures InFlight(q, op) <==> OpOf(q[0]) == op || InFlight(q[1..], op)
  {
    InFlightConcat([q[0]], q[1..], op);
    assert q == [q[0]] + q[1..];
    assert InFlight([q[0]], op) <==> OpOf([q[0]][0]) == op;
  }

  // ------------------------------------------------------ events about the link

  /** How often the events report encryption of the link. */
  function Reports(evts: seq<Evt>, h: nat): nat {
    if evts == [] then 0 else Reports(evts[..|evts| - 1], h) + if evts[|evts| - 1] == EncryptChange(h) then 1 else 0
  }

  function Credits(evts: seq<Evt>, h: nat): nat {
    if evts == [] then 0 else Credits(evts[..|evts| - 1], h) + if evts[|evts| - 1] == NumCompleted(h) then 1 else 0
  }

  function Delivered(evts: seq<Evt>, h: nat): seq<seq<Byte>> {
    if evts == [] then []
    else
      var e := evts[|evts| - 1];
      Delivered(evts[..|evts| - 1], h) + if e.AclUp? && e.handle == h then [e.payload] else []
  }

  /** The events say nothing about encryption or data on handle h. */
  predicate Mute(evts: seq<Evt>, h: nat) {
    Reports(evts, h) == 0 && Delivered(evts, h) == []
  }

  lemma {:induction false} MuteIf(evts: seq<Evt>, h: nat)
    requires forall e :: e in evts ==> e != EncryptChange(h) && !(e.AclUp? && e.handle == h)
    ensures Mute(evts, h)
  {
    if evts != [] {
      assert evts[|evts| - 1] in evts;
      MuteIf(evts[..|evts| - 1], h);
    }
  }

  lemma {:induction false} NoCredits(evts: seq<Evt>, h: nat)
    requires forall e :: e in evts ==> !e.NumCompleted?
    ensures Credits(evts, h) == 0
  {
    if evts != [] {
      assert evts[|evts| - 1] in evts;
      NoCredits(evts[..|evts| - 1], h);
    }
  }

  // ------------------------------------------------------------ what a step does

  /** The host of this end sends the command with these opcode octets and at least n
      parameter octets, of which the first two name the link's handle. */
  predicate Commands(ll: Ll, aa: nat, x: Input, low: Byte, high: Byte, n: nat) {
    && x.Host? && n >= 2 && |x.pkt| >= 4 + n && x.pkt[0] == 1 && x.pkt[1] == low && x.pkt[2] == high && x.pkt[3] >= n
    && Up(ll, aa) && x.pkt[4] as int + 256 * (x.pkt[5] as int) == 0x40 + Slot(ll, aa)
  }

  /** It supplies the link key for the link. */
  predicate IsLtkReply(ll: Ll, aa: nat, x: Input) {
    Commands(ll, aa, x, 0x1A, 0x20, 2)
  }

  /** It asks for encryption of the link. */
  predicate IsStart(ll: Ll, aa: nat, x: Input) {
    Commands(ll, aa, x, 0x19, 0x20, 2)
  }

  /** It ends the connection, and gives a reason. */
  predicate IsDisconnect(ll: Ll, aa: nat, x: Input) {
    Commands(ll, aa, x, 0x06, 0x04, 3)
  }

  /** It resets its controller. */
  predicate IsReset(x: Input) {
    x.Host? && |x.pkt| >= 4 && x.pkt[0] == 1 && x.pkt[1] == 0x03 && x.pkt[2] == 0x0C
  }

  /** The host of this end hands down an ACL packet for the link. */
  predicate IsAcl(ll: Ll, aa: nat, x: Input) {
    && x.Host? && |x.pkt| >= 5 && x.pkt[0] == 2
    && Up(ll, aa) && x.pkt[1] as int + 256 * (x.pkt[2] as int % 16) == 0x40 + Slot(ll, aa)
  }

  /** What an ACL packet has to carry: as many octets as it says and as it holds, up to 251. */
  function Octets(pkt: seq<Byte>): (r: seq<Byte>)
    requires |pkt| >= 5
    ensures |r| <= 251
  {
    var data := pkt[5..];
    var said := pkt[3] as int + 256 * (pkt[4] as int);
    var whole := if said < |data| then data[..said] else data;
    if |whole| > 251 then whole[..251] else whole
  }

  /** What that packet hands down, if anything. */
  function Offered(ll: Ll, aa: nat, x: Input): seq<seq<Byte>> {
    if IsAcl(ll, aa, x) && Octets(x.pkt) != [] then [Octets(x.pkt)] else []
  }

  /** The PDUs that the host's packet puts on the link, octet for octet. */
  function Requested(ll: Ll, aa: nat, x: Input): seq<seq<Byte>> {
    if IsAcl(ll, aa, x) then [[2, |Octets(x.pkt)|] + Octets(x.pkt)]
    else if IsLtkReply(ll, aa, x) then [[3, 1, 0x05]]
    else if IsDisconnect(ll, aa, x) then [[3, 2, 0x02, x.pkt[6]]]
    else if IsStart(ll, aa, x) then
      [[3, 23, 0x03] + (if |x.pkt| >= 32 && x.pkt[3] >= 28 then x.pkt[6..16] else Zeros(10)) + Zeros(12)]
    else []
  }

  predicate IsLinkPdu(aa: nat, x: Input) {
    x.Medium? && x.hdr.llType == LL_DATA && x.hdr.aa == aa
  }

  /** The effect on the link of a step that is not an arrival on it. */
  ghost predicate OffLink(ll: Ll, aa: nat, x: Input, e: Eff) {
    && Single(e.ll, aa)
    && (Up(e.ll, aa) <==> Up(ll, aa) && !IsDisconnect(ll, aa, x) && !IsReset(x))
    && (Up(e.ll, aa) ==> Slot(e.ll, aa) == Slot(ll, aa) && Encrypted(e.ll, aa) == Encrypted(ll, aa))
    && LinkPdus(aa, e.pdus) == Requested(ll, aa, x)
    && (Up(ll, aa) ==>
          var h := BASE_HANDLE + Slot(ll, aa);
          && Mute(e.evts, h) && Credits(e.evts, h) == (if IsAcl(ll, aa, x) then 1 else 0)
          && (IsDisconnect(ll, aa, x) ==> e.evts == [CmdStatus(0x0406, 0), DisconnComplete(h, 0x16)]))
  }

  /** What those PDUs are to the handshake and to the stream of payloads. */
  lemma RequestedShape(ll: Ll, aa: nat, x: Input)
    ensures var out := Requested(ll, aa, x);
      && !InFlight(out, LL_START_ENC_RSP)
      && (InFlight(out, LL_START_ENC_REQ) <==> IsLtkReply(ll, aa, x))
      && (InFlight(out, LL_TERMINATE_IND) <==> IsDisconnect(ll, aa, x))
      && Payloads(out) == Offered(ll, aa, x)
  {
    var out := Requested(ll, aa, x);
    if out != [] {
      PayloadsOne(out[0]);
      assert forall op: int :: InFlight(out, op) <==> OpOf(out[0]) == op;
      if IsAcl(ll, aa, x) {
        assert Content(out[0]) == Octets(x.pkt);
      }
    }
  }

  lemma LinkPdusOne(aa: nat, s: Sent)
    ensures LinkPdus(aa, [s]) == if s.hdr.llType == LL_DATA && s.hdr.aa == aa then [s.pdu] else []
  {
    assert [s][..0] == [];
  }

  lemma {:induction false} LinkPdusNone(aa: nat, pdus: seq<Sent>)
    requires forall s :: s in pdus ==> !(s.hdr.llType == LL_DATA && s.hdr.aa == aa)
    ensures LinkPdus(aa, pdus) == []
  {
    if pdus != [] {
      assert pdus[|pdus| - 1] in pdus;
      LinkPdusNone(aa, pdus[..|pdus| - 1]);
    }
  }

  lemma SameSlot(ll: Ll, next: Ll, aa: nat)
    requires Single(ll, aa) && NoTwin(ll, next, aa)
    ensures Single(next, aa)
    ensures Up(next, aa) ==> Up(ll, aa) && Slot(next, aa) == Slot(ll, aa)
  {
    if Up(next, aa) {
      var i := Slot(next, aa);
      assert OnAa(next.conns[i], aa);
      SlotIs(ll, aa, i);
    }
    forall i, j | 0 <= i < |next.conns| && 0 <= j < |next.conns| && OnAa(next.conns[i], aa) && OnAa(next.conns[j], aa)
      ensures i == j
    {
      assert OnAa(ll.conns[i], aa) && OnAa(ll.conns[j], aa);
    }
  }

  /** Nothing of the link is touched, sent or told. */
  lemma Untouched(ll: Ll, aa: nat, x: Input, e: Eff)
    requires Single(ll, aa) && NoTwin(ll, e.ll, aa)
    requires Up(e.ll, aa) && Up(ll, aa) ==> e.ll.conns[Slot(ll, aa)].encrypted == ll.conns[Slot(ll, aa)].encrypted
    requires forall s :: s in e.pdus ==> !(s.hdr.llType == LL_DATA && s.hdr.aa == aa)
    requires forall v :: v in e.evts ==> !v.NumCompleted?
    requires Up(ll, aa) ==> forall v :: v in e.evts ==>
      v != EncryptChange(BASE_HANDLE + Slot(ll, aa)) && !(v.AclUp? && v.handle == BASE_HANDLE + Slot(ll, aa))
    requires Requested(ll, aa, x) == [] && (Up(ll, aa) ==> (Up(e.ll, aa) <==> !IsReset(x)))
    ensures OffLink(ll, aa, x, e)
  {
    SameSlot(ll, e.ll, aa);
    LinkPdusNone(aa, e.pdus);
    if Up(ll, aa) {
      var h := BASE_HANDLE + Slot(ll, aa);
      MuteIf(e.evts, h);
      NoCredits(e.evts, h);
    }
  }

  /** An active entry on the Access Address is the link. */
  lemma StillUp(ll: Ll, aa: nat, i: nat)
    requires i < |ll.conns| && OnAa(ll.conns[i], aa)
    ensures Up(ll, aa)
  {
  }

  /** One control PDU of the link goes out, as requested. */
  lemma SendsControl(ll: Ll, aa: nat, x: Input, e: Eff, i: nat, op: nat, params: seq<Byte>)
    requires Single(ll, aa) && NoTwin(ll, e.ll, aa) && Up(ll, aa) && i == Slot(ll, aa)
    requires op < 256 && |params| < 64 && e.pdus == [Control(ll.regs, ll.conns[i], op, params)]
    requires Up(e.ll, aa) ==> e.ll.conns[i].encrypted == ll.conns[i].encrypted
    requires forall v :: v in e.evts ==> v.CmdStatus? || v.CmdComplete? || v.DisconnComplete?
    requires Requested(ll, aa, x) == [[3, 1 + |params|, op] + params] && !IsAcl(ll, aa, x)
    requires (Up(e.ll, aa) <==> !IsDisconnect(ll, aa, x) && !IsReset(x))
    requires IsDisconnect(ll, aa, x) ==> e.evts == [CmdStatus(0x0406, 0), DisconnComplete(BASE_HANDLE + i, 0x16)]
    ensures OffLink(ll, aa, x, e)
  {
    SameSlot(ll, e.ll, aa);
    LinkPdusOne(aa, e.pdus[0]);
    assert e.pdus[0].pdu == [3, 1 + |params|, op] + params;
    MuteIf(e.evts, BASE_HANDLE + i);
    NoCredits(e.evts, BASE_HANDLE + i);
  }

  // ----------------------------------------------- packets of the host, octet by octet

  /** The parameters of a command: those the packet holds, as far as it says. */
  lemma ParamOctets(pkt: seq<Byte>)
    requires |pkt| >= 4
    ensures |Params(pkt)| == Min(pkt[3], |pkt| - 4) && forall i :: 0 <= i < |Params(pkt)| ==> Params(pkt)[i] == pkt[4 + i]
  {
  }

  /** The handle of the link names its slot, and no other does. */
  lemma HandleNames(ll: Ll, aa: nat, h: nat)
    requires HandlesAreSlots(ll) && Single(ll, aa)
    ensures Up(ll, aa) ==> (FirstHandle(ll.conns, h, 0) == Slot(ll, aa) <==> h == 0x40 + Slot(ll, aa))
    ensures FirstHandle(ll.conns, h, 0) >= 0 ==> h == 0x40 + FirstHandle(ll.conns, h, 0)
  {
    if Up(ll, aa) {
      assert ll.conns[Slot(ll, aa)].active;
    }
  }

  lemma AclHandle(a: Byte, b: Byte)
    ensures (a as int + 256 * (b as int)) % 0x1000 == a as int + 256 * (b as int % 16)
  {
    var q, r := b as int / 16, b as int % 16;
    assert a as int + 256 * (b as int) == 0x1000 * q + (a as int + 256 * r);
    Remainder(q, a as int + 256 * r);
  }

  lemma Remainder(q: nat, r: nat)
    requires r < 0x1000
    ensures (0x1000 * q + r) % 0x1000 == r
  {
  }

  lemma PayloadOctets(pkt: seq<Byte>)
    requires |pkt| >= 5
    ensures AclPayload(pkt) == Octets(pkt)
  {
    var n := Min(Min(U16(pkt, 3), |pkt| - 5), ACL_MTU);
    assert Octets(pkt) == pkt[5..][..n];
    assert pkt[5..][..n] == pkt[5..5 + n];
  }

  /** An ACL packet for the link: one PDU with its payload goes out, one credit back. */
  lemma OwnAclOffLink(ll: Ll, aa: nat, x: Input)
    requires HandlesAreSlots(ll) && Single(ll, aa) && IsAcl(ll, aa, x)
    ensures OffLink(ll, aa, x, AclFromHost(ll, x.pkt))
  {
    hide AclPayload, Octets;
    AclHandle(x.pkt[1], x.pkt[2]);
    HandleNames(ll, aa, U16(x.pkt, 1) % 0x1000);
    PayloadOctets(x.pkt);
    var e := AclFromHost(ll, x.pkt);
    assert e.pdus == [DataFrame(ll.regs, ll.conns[Slot(ll, aa)], DataPdu(LLID_START, Octets(x.pkt)))];
    LinkPdusOne(aa, e.pdus[0]);
    OneCredit(BASE_HANDLE + Slot(ll, aa), BASE_HANDLE + Slot(ll, aa));
  }

  lemma OneCredit(h: nat, k: nat)
    ensures Mute([NumCompleted(k)], h) && Credits([NumCompleted(k)], h) == if h == k then 1 else 0
  {
    assert [NumCompleted(k)][..0] == [];
  }

  lemma OtherAclOffLink(ll: Ll, aa: nat, x: Input)
    requires HandlesAreSlots(ll) && Single(ll, aa) && x.Host? && |x.pkt| >= 1 && x.pkt[0] == ACL_PKT && !IsAcl(ll, aa, x)
    ensures OffLink(ll, aa, x, AclFromHost(ll, x.pkt))
  {
    hide AclPayload;
    var e := AclFromHost(ll, x.pkt);
    assert Requested(ll, aa, x) == [];
    if e.evts != [] {
      var j := FirstHandle(ll.conns, U16(x.pkt, 1) % 0x1000, 0);
      AclHandle(x.pkt[1], x.pkt[2]);
      HandleNames(ll, aa, U16(x.pkt, 1) % 0x1000);
      SlotIs(ll, aa, j);
      LinkPdusOne(aa, e.pdus[0]);
      if Up(ll, aa) {
        OneCredit(BASE_HANDLE + Slot(ll, aa), BASE_HANDLE + j);
      }
    } else {
      Untouched(ll, aa, x, e);
    }
  }

  predicate IsCommand(x: Input, op: nat) {
    x.Host? && |x.pkt| >= 4 && x.pkt[0] == CMD_PKT && U16(x.pkt, 1) == op
  }

  lemma OpcodeOctets(x: Input, low: Byte, high: Byte)
    requires x.Host? && |x.pkt| >= 4 && x.pkt[0] == CMD_PKT
    ensures IsCommand(x, low as int + 256 * (high as int)) <==> x.pkt[1] == low && x.pkt[2] == high
  {
  }

  /** What the octets of a command say, in terms of its parameters. */
  lemma CommandNames(ll: Ll, aa: nat, x: Input, low: Byte, high: Byte, n: nat)
    requires HandlesAreSlots(ll) && Single(ll, aa) && IsCommand(x, low as int + 256 * (high as int)) && n >= 2
    ensures Commands(ll, aa, x, low, high, n)
       <==> |Params(x.pkt)| >= n && Up(ll, aa) && FirstHandle(ll.conns, U16(Params(x.pkt), 0), 0) == Slot(ll, aa)
  {
    OpcodeOctets(x, low, high);
    ParamOctets(x.pkt);
    if |Params(x.pkt)| >= n {
      HandleNames(ll, aa, U16(Params(x.pkt), 0));
    }
  }

  /** A command with these opcode octets requests only what such a command can. */
  lemma RequestsOnly(ll: Ll, aa: nat, x: Input, op: nat)
    requires IsCommand(x, op)
    ensures !IsAcl(ll, aa, x) && (op != OP_LTK_REPLY ==> !IsLtkReply(ll, aa, x)) && (op != OP_DISCONNECT ==> !IsDisconnect(ll, aa, x))
    ensures (op != OP_START_ENCRYPTION ==> !IsStart(ll, aa, x)) && (IsReset(x) <==> op == OP_RESET)
  {
  }

  lemma StartEncryptionOffLink(ll: Ll, aa: nat, x: Input)
    requires HandlesAreSlots(ll) && Single(ll, aa) && IsCommand(x, OP_START_ENCRYPTION)
    ensures OffLink(ll, aa, x, StartEncryption(ll, Params(x.pkt)))
  {
    hide Commands, IsAcl;
    var params := Params(x.pkt);
    var e := StartEncryption(ll, params);
    var i := NamedConn(ll, params);
    RequestsOnly(ll, aa, x, OP_START_ENCRYPTION);
    CommandNames(ll, aa, x, 0x19, 0x20, 2);
    if i >= 0 {
      SlotIs(ll, aa, i);
      StillUpAfter(ll, e.ll, aa);
      if Up(ll, aa) && Slot(ll, aa) == i {
        var req := (if |params| >= 28 then params[2..12] else Zeros(10)) + Zeros(12);
        StartOctets(ll, aa, x, req);
        SendsControl(ll, aa, x, e, i, LL_ENC_REQ, req);
      } else {
        Untouched(ll, aa, x, e);
      }
    } else {
      Untouched(ll, aa, x, e);
    }
  }

  lemma StartOctets(ll: Ll, aa: nat, x: Input, req: seq<Byte>)
    requires IsCommand(x, OP_START_ENCRYPTION) && IsStart(ll, aa, x)
    requires var params := Params(x.pkt); req == (if |params| >= 28 then params[2..12] else Zeros(10)) + Zeros(12)
    ensures |req| == 22 && Requested(ll, aa, x) == [[3, 1 + |req|, LL_ENC_REQ] + req]
  {
    hide Zeros;
    var params := Params(x.pkt);
    ParamOctets(x.pkt);
    var given := if |x.pkt| >= 32 && x.pkt[3] >= 28 then x.pkt[6..16] else Zeros(10);
    if |params| >= 28 {
      assert params[2..12] == x.pkt[6..16];
    }
    assert req == given + Zeros(12);
    assert [3, 23, LL_ENC_REQ] + given + Zeros(12) == [3, 23, LL_ENC_REQ] + req;
  }

  /** A link whose entry is still active on its Access Address is still up. */
  lemma StillUpAfter(ll: Ll, next: Ll, aa: nat)
    requires |next.conns| == |ll.conns| && forall i :: 0 <= i < |ll.conns| ==> OnAa(next.conns[i], aa) == OnAa(ll.conns[i], aa)
    ensures Up(next, aa) <==> Up(ll, aa)
  {
    if Up(ll, aa) {
      StillUp(next, aa, Slot(ll, aa));
    }
    if Up(next, aa) {
      StillUp(ll, aa, Slot(next, aa));
    }
  }

  lemma LtkReplyOffLink(ll: Ll, aa: nat, x: Input)
    requires HandlesAreSlots(ll) && Single(ll, aa) && IsCommand(x, OP_LTK_REPLY)
    ensures OffLink(ll, aa, x, LtkReply(ll, Params(x.pkt)))
  {
    hide Commands, IsAcl;
    var params := Params(x.pkt);
    var e := LtkReply(ll, params);
    var i := FirstHandle(ll.conns, NamedHandle(params), 0);
    RequestsOnly(ll, aa, x, OP_LTK_REPLY);
    CommandNames(ll, aa, x, 0x1A, 0x20, 2);
    HandleNames(ll, aa, NamedHandle(params));
    if i >= 0 {
      SlotIs(ll, aa, i);
      if Up(ll, aa) && Slot(ll, aa) == i {
        assert [3, 1, 5] + [] == [3, 1, 5];
        SendsControl(ll, aa, x, e, i, LL_START_ENC_REQ, []);
      } else {
        Untouched(ll, aa, x, e);
      }
    } else {
      Untouched(ll, aa, x, e);
    }
  }

  lemma DisconnectOffLink(ll: Ll, aa: nat, x: Input)
    requires HandlesAreSlots(ll) && Single(ll, aa) && IsCommand(x, OP_DISCONNECT)
    ensures OffLink(ll, aa, x, Disconnect(ll, Params(x.pkt)))
  {
    hide Commands, IsAcl;
    var params := Params(x.pkt);
    var e := Disconnect(ll, params);
    var i := if |params| >= 3 then NamedConn(ll, params) else -1;
    RequestsOnly(ll, aa, x, OP_DISCONNECT);
    CommandNames(ll, aa, x, 0x06, 0x04, 3);
    ParamOctets(x.pkt);
    if i >= 0 {
      SlotIs(ll, aa, i);
      if Up(ll, aa) && Slot(ll, aa) == i {
        EndsHere(ll, e.ll, aa);
        assert [3, 2, 2] + [params[2]] == [3, 2, 2, x.pkt[6]];
        SendsControl(ll, aa, x, e, i, LL_TERMINATE_IND, [params[2]]);
      } else {
        StillUpAfter(ll, e.ll, aa);
        Untouched(ll, aa, x, e);
      }
    } else {
      Untouched(ll, aa, x, e);
    }
  }

  lemma EndsHere(ll: Ll, next: Ll, aa: nat)
    requires Single(ll, aa) && Up(ll, aa) && NoTwin(ll, next, aa) && !next.conns[Slot(ll, aa)].active
    ensures !Up(next, aa)
  {
    SameSlot(ll, next, aa);
  }

  lemma CommandOffLink(ll: Ll, aa: nat, x: Input)
    requires HandlesAreSlots(ll) && Single(ll, aa) && x.Host? && |x.pkt| >= 4 && x.pkt[0] == CMD_PKT
    ensures OffLink(ll, aa, x, Command(ll, x.pkt))
  {
    var op := U16(x.pkt, 1);
    if op == OP_START_ENCRYPTION {
      StartEncryptionOffLink(ll, aa, x);
    } else if op == OP_LTK_REPLY {
      LtkReplyOffLink(ll, aa, x);
    } else if op == OP_DISCONNECT {
      DisconnectOffLink(ll, aa, x);
    } else {
      LocalOffLink(ll, aa, x, op);
    }
  }

  lemma LocalOffLink(ll: Ll, aa: nat, x: Input, op: nat)
    requires HandlesAreSlots(ll) && Single(ll, aa) && IsCommand(x, op)
    requires op != OP_START_ENCRYPTION && op != OP_LTK_REPLY && op != OP_DISCONNECT
    ensures OffLink(ll, aa, x, LocalCommand(ll, op, Params(x.pkt)))
  {
    hide LocalCommand;
    var e := LocalCommand(ll, op, Params(x.pkt));
    LocalShape(ll, op, Params(x.pkt));
    RequestsOnly(ll, aa, x, op);
    if op != OP_RESET {
      StillUpAfter(ll, e.ll, aa);
    }
    Untouched(ll, aa, x, e);
  }

  /** The other commands send nothing, and leave the connections alone, but Reset ends them
      all. */
  lemma LocalShape(ll: Ll, op: nat, params: seq<Byte>)
    requires Sized(ll)
    ensures var e := LocalCommand(ll, op, params);
      && e.pdus == [] && |e.ll.conns| == MAX_CONN
      && (if op == OP_RESET then forall i :: 0 <= i < MAX_CONN ==> !e.ll.conns[i].active else e.ll.conns == ll.conns)
      && (forall v :: v in e.evts ==>
            v.CmdComplete? || v.CmdStatus? || v.ConnUpdated? || v.RemoteFeatures? || v.RemoteVersion?)
  {
  }

  /** A data PDU touches only the connection of its Access Address, answers only on that, and
      tells the host only of that. */
  lemma DataShape(ll: Ll, x: Input)
    requires Sized(ll) && x.Medium? && x.hdr.llType == LL_DATA
    ensures var e := Step(ll, x); var j := FirstAa(ll.conns, x.hdr.aa, 0);
      && |e.ll.conns| == MAX_CONN
      && (forall i :: 0 <= i < MAX_CONN && i != j ==> e.ll.conns[i] == ll.conns[i])
      && (j >= 0 && e.ll.conns[j].active ==> e.ll.conns[j].aa == x.hdr.aa)
      && (forall s :: s in e.pdus ==> s.hdr.aa == x.hdr.aa)
      && |e.evts| <= 1
      && (e.evts != [] ==> j >= 0 && !e.evts[0].NumCompleted?)
      && (e.evts != [] && (e.evts[0].EncryptChange? || e.evts[0].AclUp?) ==>
            e.evts[0].handle == ll.conns[j].handle)
  {
    hide RandEdiv, DataPdu;
  }

  lemma DataOffLink(ll: Ll, aa: nat, x: Input)
    requires HandlesAreSlots(ll) && Single(ll, aa) && x.Medium? && x.hdr.llType == LL_DATA && x.hdr.aa != aa
    ensures OffLink(ll, aa, x, Step(ll, x))
  {
    hide Step;
    var e := Step(ll, x);
    DataShape(ll, x);
    var j := FirstAa(ll.conns, x.hdr.aa, 0);
    if j >= 0 {
      SlotIs(ll, aa, j);
    }
    Untouched(ll, aa, x, e);
  }

  lemma AirOffLink(ll: Ll, aa: nat, x: Input)
    requires HandlesAreSlots(ll) && Single(ll, aa) && NoTwin(ll, Step(ll, x).ll, aa)
    requires (x.Medium? && x.hdr.llType != LL_DATA) || x.Clock?
    ensures OffLink(ll, aa, x, Step(ll, x))
  {
    hide Step;
    var e := Step(ll, x);
    AirShape(ll, x);
    if Up(ll, aa) {
      var i := Slot(ll, aa);
      assert e.ll.conns[i] == ll.conns[i];
    }
    Untouched(ll, aa, x, e);
  }

  /** What is heard on the air touches no connection, sends nothing on a link and hands no
      payload up. */
  lemma AirShape(ll: Ll, x: Input)
    requires Sized(ll) && ((x.Medium? && x.hdr.llType != LL_DATA) || x.Clock?)
    ensures var e := Step(ll, x);
      && |e.ll.conns| == MAX_CONN
      && (forall s :: s in e.pdus ==> s.hdr.llType == LL_ADV)
      && (forall i :: 0 <= i < MAX_CONN && ll.conns[i].active ==> e.ll.conns[i] == ll.conns[i])
      && |e.evts| <= 1 && (e.evts != [] ==> e.evts[0].ConnComplete? || e.evts[0].AdvReport?)
  {
    hide ConnectPdu, ShowPdu, LeBytes, Le, TypeBits;
  }

  /** Any step of a controller that is not an arrival on the link. */
  lemma StepOffLink(ll: Ll, aa: nat, x: Input)
    requires HandlesAreSlots(ll) && Single(ll, aa) && NoTwin(ll, Step(ll, x).ll, aa) && !IsLinkPdu(aa, x)
    ensures OffLink(ll, aa, x, Step(ll, x))
  {
    match x
    case Host(pkt) =>
      if |pkt| >= 4 && pkt[0] == CMD_PKT {
        CommandOffLink(ll, aa, x);
      } else if |pkt| >= 1 && pkt[0] == ACL_PKT {
        if IsAcl(ll, aa, x) {
          OwnAclOffLink(ll, aa, x);
        } else {
          OtherAclOffLink(ll, aa, x);
        }
      } else {
        Untouched(ll, aa, x, Step(ll, x));
      }
    case Medium(hdr, pdu) =>
      if hdr.llType == LL_DATA {
        DataOffLink(ll, aa, x);
      } else {
        AirOffLink(ll, aa, x);
      }
    case Clock(now) => AirOffLink(ll, aa, x);
  }

  /** The PDU with which a controller answers one that arrives, octet for octet. */
  function Answer(pdu: seq<Byte>): seq<seq<Byte>> {
    var op := OpOf(pdu);
    if op == 0x0C then [[3, 6, 0x0C, 0x0c, 0x0f, 0, 0x0f, 0]]
    else if op == 0x08 || op == 0x0E then [[3, 9, 0x09, 1, 0, 0, 0, 0, 0, 0, 0]]
    else if op == 0x03 then [[3, 13, 0x04, 0, 0, 0, 0, 0, 0, 0, 0, 0, 0, 0, 0]]
    else if op == 0x05 then [[3, 1, 0x06]]
    else []
  }

  /** What the host is told when a PDU arrives on the connection with handle h. */
  function Notices(pdu: seq<Byte>, h: nat, encrypted: bool): seq<Evt> {
    var op, body := OpOf(pdu), Content(pdu);
    if op == 0x02 then [DisconnComplete(h, if |body| >= 2 then body[1] else 0x13)]
    else if op == 0x03 then [LtkRequest(h, if |body| >= 23 then body[1..11] else Zeros(10))]
    else if (op == 0x05 || op == 0x06) && !encrypted then [EncryptChange(h)]
    else if PayloadOf(pdu) != [] then [AclUp(h, body)]
    else []
  }

  /** The effect of a PDU that arrives on the link. */
  ghost predicate Arrives(ll: Ll, aa: nat, pdu: seq<Byte>, e: Eff) {
    var starts := OpOf(pdu) == LL_START_ENC_REQ || OpOf(pdu) == LL_START_ENC_RSP;
    if !Up(ll, aa) then e == Eff(ll, [], [])
    else
      && Single(e.ll, aa)
      && (Up(e.ll, aa) <==> OpOf(pdu) != LL_TERMINATE_IND)
      && (Up(e.ll, aa) ==> Slot(e.ll, aa) == Slot(ll, aa) && Encrypted(e.ll, aa) == (Encrypted(ll, aa) || starts))
      && LinkPdus(aa, e.pdus) == Answer(pdu)
      && e.evts == Notices(pdu, BASE_HANDLE + Slot(ll, aa), Encrypted(ll, aa))
  }

  /** What the answer is to the handshake and the stream. */
  lemma AnswerShape(pdu: seq<Byte>)
    ensures var out, op := Answer(pdu), OpOf(pdu);
      && (InFlight(out, LL_START_ENC_RSP) <==> op == LL_START_ENC_REQ)
      && !InFlight(out, LL_START_ENC_REQ) && !InFlight(out, LL_TERMINATE_IND) && Payloads(out) == []
  {
    var out := Answer(pdu);
    if out != [] {
      PayloadsOne(out[0]);
      assert forall op: int :: InFlight(out, op) <==> OpOf(out[0]) == op;
    }
  }

  /** What the host is told about encryption, data and credits. */
  lemma NoticeShape(pdu: seq<Byte>, h: nat, encrypted: bool)
    ensures var evts, op := Notices(pdu, h, encrypted), OpOf(pdu);
      && Reports(evts, h) == (if (op == LL_START_ENC_REQ || op == LL_START_ENC_RSP) && !encrypted then 1 else 0)
      && Delivered(evts, h) == PayloadOf(pdu) && Credits(evts, h) == 0
  {
    hide Content;
    var evts := Notices(pdu, h, encrypted);
    if evts != [] {
      assert evts[..0] == [];
    }
  }

  lemma BodyIs(pdu: seq<Byte>)
    requires |pdu| >= 2
    ensures Body(pdu) == Content(pdu)
  {
  }

  /** A control PDU on the link's slot. */
  lemma ControlArrives(ll: Ll, aa: nat, pdu: seq<Byte>)
    requires HandlesAreSlots(ll) && Single(ll, aa) && Up(ll, aa) && |pdu| >= 2 && pdu[0] % 4 == LLID_CONTROL
    ensures Arrives(ll, aa, pdu, HandleControl(ll, Slot(ll, aa), Body(pdu)))
  {
    hide Content, Body, HandleControl;
    var i := Slot(ll, aa);
    var e := HandleControl(ll, i, Body(pdu));
    BodyIs(pdu);
    OpIs(pdu);
    ControlSlot(ll, aa, i, Body(pdu));
    ControlTells(ll, i, pdu);
    if e.pdus != [] {
      LinkPdusOne(aa, e.pdus[0]);
    }
  }

  function FirstOctet(body: seq<Byte>): int {
    if |body| >= 1 then body[0] else -1
  }

  lemma OpIs(pdu: seq<Byte>)
    requires |pdu| >= 2 && pdu[0] % 4 == LLID_CONTROL
    ensures OpOf(pdu) == FirstOctet(Body(pdu)) && PayloadOf(pdu) == []
  {
  }

  lemma ControlSlot(ll: Ll, aa: nat, i: nat, body: seq<Byte>)
    requires HandlesAreSlots(ll) && Single(ll, aa) && Up(ll, aa) && i == Slot(ll, aa)
    ensures var e := HandleControl(ll, i, body); var op := FirstOctet(body);
      && Single(e.ll, aa)
      && (Up(e.ll, aa) <==> op != LL_TERMINATE_IND)
      && (Up(e.ll, aa) ==> Slot(e.ll, aa) == i)
      && (Up(e.ll, aa) ==>
            Encrypted(e.ll, aa) == (Encrypted(ll, aa) || op == LL_START_ENC_REQ || op == LL_START_ENC_RSP))
  {
    var e := HandleControl(ll, i, body);
    assert NoTwin(ll, e.ll, aa);
    SameSlot(ll, e.ll, aa);
    if |body| < 1 || body[0] != LL_TERMINATE_IND {
      assert OnAa(e.ll.conns[i], aa);
      SlotIs(e.ll, aa, i);
    }
  }

  /** What a controller answers to a control PDU and tells its host. */
  lemma ControlTells(ll: Ll, i: nat, pdu: seq<Byte>)
    requires HandlesAreSlots(ll) && i < MAX_CONN && ll.conns[i].active && |pdu| >= 2 && pdu[0] % 4 == LLID_CONTROL
    ensures var e := HandleControl(ll, i, Body(pdu)); var c := ll.conns[i];
      && e.evts == Notices(pdu, BASE_HANDLE + i, c.encrypted)
      && |e.pdus| == |Answer(pdu)| <= 1
      && (e.pdus != [] ==> e.pdus[0].hdr.llType == LL_DATA && e.pdus[0].hdr.aa == c.aa && e.pdus[0].pdu == Answer(pdu)[0])
  {
    hide Body, Content;
    BodyIs(pdu);
    OpIs(pdu);
    ControlAnswers(ll, i, pdu);
  }

  lemma ControlAnswers(ll: Ll, i: nat, pdu: seq<Byte>)
    requires Sized(ll) && i < MAX_CONN && |pdu| >= 2 && pdu[0] % 4 == LLID_CONTROL
    ensures var e := HandleControl(ll, i, Body(pdu));
      && |e.pdus| == |Answer(pdu)| <= 1
      && (e.pdus != [] ==> e.pdus[0].hdr.llType == LL_DATA && e.pdus[0].hdr.aa == ll.conns[i].aa && e.pdus[0].pdu == Answer(pdu)[0])
  {
    hide Body, RandEdiv;
    OpIs(pdu);
  }

  lemma StepArrives(ll: Ll, aa: nat, hdr: Hdr, pdu: seq<Byte>)
    requires HandlesAreSlots(ll) && Single(ll, aa) && hdr.llType == LL_DATA && hdr.aa == aa
    ensures Arrives(ll, aa, pdu, Step(ll, Medium(hdr, pdu)))
  {
    hide HandleControl;
    if Up(ll, aa) {
      if |pdu| >= 2 && pdu[0] % 4 == LLID_CONTROL {
        ControlArrives(ll, aa, pdu);
      } else {
        PayloadArrives(ll, aa, hdr, pdu);
      }
    }
  }

  lemma PayloadArrives(ll: Ll, aa: nat, hdr: Hdr, pdu: seq<Byte>)
    requires HandlesAreSlots(ll) && Single(ll, aa) && Up(ll, aa) && hdr.llType == LL_DATA && hdr.aa == aa
    requires |pdu| < 2 || pdu[0] % 4 != LLID_CONTROL
    ensures Arrives(ll, aa, pdu, Step(ll, Medium(hdr, pdu)))
  {
    hide Body, HandleControl;
    if |pdu| >= 2 {
      BodyIs(pdu);
    }
    var e := Step(ll, Medium(hdr, pdu));
    assert e.ll == ll && e.pdus == [] && OpOf(pdu) == -1;
  }

  /** The Rand and EDIV that the central's host gives are those that the peripheral's host is
      asked a key for. */
  lemma RandEdivCarried(a: Ll, params: seq<Byte>, b: Ll, i: nat)
    requires Sized(a) && Sized(b) && i < MAX_CONN && |params| >= 28 && NamedConn(a, params) >= 0
    ensures var pdu := StartEncryption(a, params).pdus[0].pdu;
      |pdu| >= 2 && HandleControl(b, i, Body(pdu)).evts == [LtkRequest(b.conns[i].handle, params[2..12])]
  {
    var pdu := StartEncryption(a, params).pdus[0].pdu;
    var body := [LL_ENC_REQ] + (params[2..12] + Zeros(12));
    assert pdu == [LLID_CONTROL, |body|] + body;
    assert Body(pdu) == body;
    assert body[1..11] == params[2..12];
  }
}
