/** The BLE controller core of vbt_ll.c as a state machine over values: what each HCI
    packet from the host, each PDU from the medium and each tick makes of its state, the
    events it sends up and the frames it puts on the medium. The class in Controller.dfy
    runs these steps in place. */
module LinkLayer {
  import opened Wire
  import opened Lcg

  const MAX_CONN: nat := 8
  const BASE_HANDLE: nat := 0x40
  const ACL_MTU: nat := 251
  const ADV_INTERVAL_MS: nat := 100
  const CLOCK_RANGE: nat := 0x1_0000_0000_0000_0000
  const DEFAULT_RSSI: int := -40

  // HCI packet types and the opcodes with an effect of their own.
  const CMD_PKT: nat := 1
  const ACL_PKT: nat := 2
  const OP_DISCONNECT: nat := 0x0406
  const OP_READ_REMOTE_VERSION: nat := 0x041D
  const OP_RESET: nat := 0x0C03
  const OP_SET_RANDOM_ADDRESS: nat := 0x2005
  const OP_SET_ADV_PARAMETERS: nat := 0x2006
  const OP_SET_ADV_DATA: nat := 0x2008
  const OP_SET_SCAN_RSP_DATA: nat := 0x2009
  const OP_SET_ADV_ENABLE: nat := 0x200A
  const OP_SET_SCAN_PARAMETERS: nat := 0x200B
  const OP_SET_SCAN_ENABLE: nat := 0x200C
  const OP_CREATE_CONN: nat := 0x200D
  const OP_CREATE_CONN_CANCEL: nat := 0x200E
  const OP_CONN_UPDATE: nat := 0x2013
  const OP_READ_REMOTE_FEATURES: nat := 0x2016
  const OP_RAND: nat := 0x2018
  const OP_START_ENCRYPTION: nat := 0x2019
  const OP_LTK_REPLY: nat := 0x201A

  /** The commands that are answered with a Command Complete of fixed content. */
  const PLAIN_OPCODES: set<nat> := {
    0x0C01, 0x0C63, 0x1001, 0x1002, 0x1003, 0x1005, 0x1009, 0x2001, 0x2002, 0x2003, 0x2007,
    0x200F, 0x2010, 0x2011, 0x2012, 0x2014, 0x2017, 0x201B, 0x201C
  }

  const SUCCESS: nat := 0
  const UNKNOWN_COMMAND: nat := 1
  const REMOTE_USER_TERM: nat := 0x13
  const TERM_LOCAL_HOST: nat := 0x16

  // Link-Layer control opcodes and LLIDs.
  const LL_TERMINATE_IND: nat := 0x02
  const LL_ENC_REQ: nat := 0x03
  const LL_ENC_RSP: nat := 0x04
  const LL_START_ENC_REQ: nat := 0x05
  const LL_START_ENC_RSP: nat := 0x06
  const LL_FEATURE_REQ: nat := 0x08
  const LL_FEATURE_RSP: nat := 0x09
  const LL_VERSION_IND: nat := 0x0C
  const LL_SLAVE_FEATURE_REQ: nat := 0x0E
  const LLID_CONT: nat := 1
  const LLID_START: nat := 2
  const LLID_CONTROL: nat := 3

  datatype Mode = Idle | Advertising | Scanning | Initiating

  const CENTRAL: nat := 0
  const PERIPHERAL: nat := 1

  datatype LlConn = LlConn(active: bool, handle: nat, aa: nat, role: nat, peerAddr: Addr, peerType: nat,
                           encrypting: bool, encrypted: bool)

  const BLANK_CONN := LlConn(false, 0, 0, 0, ZERO_ADDR, 0, false, false)

  const AD_MAX: nat := 31

  /** The data of an advertisement or a scan response. */
  type AdOctets = s: seq<Byte> | |s| <= AD_MAX witness []

  /** Everything but the connection table. */
  datatype Regs = Regs(publicAddr: Addr, randomAddr: Addr, randomSet: bool, mode: Mode,
                       advEnabled: bool, advType: nat, advOwnType: nat, lastAdv: nat,
                       advData: AdOctets, rspData: AdOctets,
                       scanEnabled: bool, scanType: nat, scanOwnType: nat,
                       initPeer: Addr, initOwnType: nat, nextAa: nat)

  datatype Ll = Ll(regs: Regs, conns: seq<LlConn>)

  /** What goes up to the host. */
  datatype Evt =
    | CmdComplete(opcode: nat, status: nat)
    | CmdStatus(opcode: nat, status: nat)
    | ConnComplete(handle: nat, role: nat, peerType: nat, peerAddr: Addr)
    | DisconnComplete(handle: nat, reason: nat)
    | NumCompleted(handle: nat)
    | EncryptChange(handle: nat)
    | LtkRequest(handle: nat, randEdiv: seq<Byte>)
    | ConnUpdated(handle: nat)
    | RemoteFeatures(handle: nat)
    | RemoteVersion(handle: nat)
    | AdvReport(kind: nat, addrType: nat, addr: Addr, data: seq<Byte>, rssi: int)
    | AclUp(handle: nat, payload: seq<Byte>)

  /** What goes out on the medium. */
  datatype Sent = Sent(hdr: Hdr, pdu: seq<Byte>)

  /** One step's outcome. */
  datatype Eff = Eff(ll: Ll, evts: seq<Evt>, pdus: seq<Sent>)

  predicate Sized(ll: Ll) {
    |ll.conns| == MAX_CONN
  }

  // ------------------------------------------------------------------- octets

  /** n as k octets, least significant first. */
  function LeBytes(n: nat, k: nat): (r: seq<Byte>)
    ensures |r| == k
  {
    if k == 0 then [] else [n % 256] + LeBytes(n / 256, k - 1)
  }

  function U16(b: seq<Byte>, i: nat): nat
    requires i + 1 < |b|
  {
    b[i] as int + 256 * (b[i + 1] as int)
  }

  // ------------------------------------------------------------ small helpers

  function OwnAddr(r: Regs, ownType: nat): Addr {
    if ownType % 2 == 1 && r.randomSet then r.randomAddr else r.publicAddr
  }

  function FirstHandle(conns: seq<LlConn>, h: nat, i: nat): (r: int)
    requires i <= |conns|
    ensures r == -1 || i <= r < |conns|
    ensures r >= 0 ==> conns[r].active && conns[r].handle == h
    ensures forall k :: i <= k < (if r >= 0 then r else |conns|) ==> !(conns[k].active && conns[k].handle == h)
    decreases |conns| - i
  {
    if i == |conns| then -1
    else if conns[i].active && conns[i].handle == h then i
    else FirstHandle(conns, h, i + 1)
  }

  function FirstAa(conns: seq<LlConn>, aa: nat, i: nat): (r: int)
    requires i <= |conns|
    ensures r == -1 || i <= r < |conns|
    ensures r >= 0 ==> conns[r].active && conns[r].aa == aa
    ensures forall k :: i <= k < (if r >= 0 then r else |conns|) ==> !(conns[k].active && conns[k].aa == aa)
    decreases |conns| - i
  {
    if i == |conns| then -1
    else if conns[i].active && conns[i].aa == aa then i
    else FirstAa(conns, aa, i + 1)
  }

  function FirstIdle(conns: seq<LlConn>, i: nat): (r: int)
    requires i <= |conns|
    ensures r == -1 || i <= r < |conns|
    ensures r >= 0 ==> !conns[r].active
    ensures forall k :: i <= k < (if r >= 0 then r else |conns|) ==> conns[k].active
    decreases |conns| - i
  {
    if i == |conns| then -1
    else if !conns[i].active then i
    else FirstIdle(conns, i + 1)
  }

  // ---------------------------------------------------------------- emission

  function AdvFrame(tx: Addr, pdu: seq<Byte>): Sent {
    Sent(Hdr(ADV_ACCESS_ADDR, 0, tx, LL_ADV, DEFAULT_RSSI), pdu)
  }

  function DataFrame(r: Regs, c: LlConn, pdu: seq<Byte>): Sent {
    Sent(Hdr(c.aa, 0, OwnAddr(r, if c.role == PERIPHERAL then r.advOwnType else r.initOwnType), LL_DATA, DEFAULT_RSSI), pdu)
  }

  /** A data-channel PDU: LLID, length, payload. */
  function DataPdu(llid: nat, payload: seq<Byte>): seq<Byte>
    requires llid < 4 && |payload| < 256
  {
    [llid, |payload|] + payload
  }

  function Control(r: Regs, c: LlConn, op: nat, params: seq<Byte>): Sent
    requires op < 256 && |params| < 64
  {
    DataFrame(r, c, DataPdu(LLID_CONTROL, [op] + params))
  }

  function TypeBits(kind: nat, tx: nat, rx: nat): Byte
    requires kind < 16
  {
    kind + (if tx == 1 then 0x40 else 0) + (if rx == 1 then 0x80 else 0)
  }

  /** The CONNECT_IND a central sends: InitA, AdvA, Access Address, fixed parameters. */
  function ConnectPdu(inita: Addr, itype: nat, adva: Addr, atype: nat, aa: nat): (r: seq<Byte>)
    ensures |r| == 36
  {
    [TypeBits(CONNECT_IND, itype, atype), 34] + LeBytes(inita, 6) + LeBytes(adva, 6) + LeBytes(aa, 4)
    + [0x55, 0x55, 0x55, 3, 0, 0, 0x18, 0, 0, 0, 0x2a, 0, 0xff, 0xff, 0xff, 0xff, 0x1f, 0]
  }

  /** An advertising-channel PDU that shows an address and data. */
  function ShowPdu(kind: nat, atype: nat, adva: Addr, data: AdOctets): seq<Byte>
    requires kind < 16
  {
    [TypeBits(kind, atype, 0), 6 + |data|] + LeBytes(adva, 6) + data
  }

  function Zeros(n: nat): (r: seq<Byte>)
    ensures |r| == n
  {
    seq(n, _ => 0)
  }

  /** Rand and EDIV of a key request, when it is long enough to hold them. */
  function RandEdiv(body: seq<Byte>): (r: seq<Byte>)
    ensures |r| == 10
  {
    if |body| >= 23 then body[1..11] else Zeros(10)
  }

  // -------------------------------------------------------- control PDUs received

  function Update(ll: Ll, i: nat, c: LlConn): Ll
    requires i < |ll.conns|
  {
    ll.(conns := ll.conns[i := c])
  }

  /** An LL control PDU on connection slot i. */
  function HandleControl(ll: Ll, i: nat, body: seq<Byte>): (e: Eff)
    requires Sized(ll) && i < MAX_CONN
    ensures Sized(e.ll) && e.ll.regs == ll.regs
  {
    var c := ll.conns[i];
    if |body| < 1 then Eff(ll, [], [])
    else if body[0] == LL_TERMINATE_IND then
      Eff(Update(ll, i, c.(active := false)),
          [DisconnComplete(c.handle, if |body| >= 2 then body[1] else REMOTE_USER_TERM)], [])
    else if body[0] == LL_VERSION_IND then
      Eff(ll, [], [Control(ll.regs, c, LL_VERSION_IND, [0x0c, 0x0f, 0, 0x0f, 0])])
    else if body[0] == LL_FEATURE_REQ || body[0] == LL_SLAVE_FEATURE_REQ then
      Eff(ll, [], [Control(ll.regs, c, LL_FEATURE_RSP, [1, 0, 0, 0, 0, 0, 0, 0])])
    else if body[0] == LL_ENC_REQ then
      Eff(Update(ll, i, c.(encrypting := true)), [LtkRequest(c.handle, RandEdiv(body))],
          [Control(ll.regs, c, LL_ENC_RSP, [0, 0, 0, 0, 0, 0, 0, 0, 0, 0, 0, 0])])
    else if body[0] == LL_START_ENC_REQ then
      Eff(Update(ll, i, c.(encrypted := true)),
          if c.encrypted then [] else [EncryptChange(c.handle)],
          [Control(ll.regs, c, LL_START_ENC_RSP, [])])
    else if body[0] == LL_START_ENC_RSP then
      Eff(Update(ll, i, c.(encrypted := true)),
          if c.encrypted then [] else [EncryptChange(c.handle)], [])
    else Eff(ll, [], [])
  }

  // ------------------------------------------------------------- HCI commands

  function Complete(ll: Ll, op: nat): Eff {
    Eff(ll, [CmdComplete(op, SUCCESS)], [])
  }

  /** The handle named by a command's first two parameter octets (0 when missing). */
  function NamedHandle(params: seq<Byte>): nat {
    if |params| >= 2 then U16(params, 0) else 0
  }

  function NamedConn(ll: Ll, params: seq<Byte>): (r: int)
    ensures -1 <= r < |ll.conns|
  {
    if |params| >= 2 then FirstHandle(ll.conns, U16(params, 0), 0) else -1
  }

  function Reset(ll: Ll): Ll
    requires Sized(ll)
  {
    Ll(ll.regs.(mode := Idle, advEnabled := false, scanEnabled := false), seq(MAX_CONN, _ => BLANK_CONN))
  }

  function SetAdvEnable(r: Regs, on: bool): Regs {
    if on then r.(advEnabled := true, mode := Advertising, lastAdv := 0)
    else r.(advEnabled := false, mode := if r.mode == Advertising then Idle else r.mode)
  }

  function SetScanEnable(r: Regs, on: bool): Regs {
    if on then r.(scanEnabled := true, mode := Scanning)
    else r.(scanEnabled := false, mode := if r.mode == Scanning then Idle else r.mode)
  }

  predicate On(params: seq<Byte>) {
    |params| >= 1 && params[0] != 0
  }

  /** The data of a Set Advertising Data or Set Scan Response Data command: as many octets as
      its first one says, up to 31. */
  function AdParam(params: seq<Byte>): (r: AdOctets)
    requires |params| >= 1
  {
    (params[1..] + Zeros(AD_MAX))[..Min(params[0], AD_MAX)]
  }

  /** The commands that only change registers. */
  function RegisterCommand(r: Regs, op: nat, params: seq<Byte>): Regs {
    if op == OP_SET_RANDOM_ADDRESS then
      if |params| >= 6 then r.(randomAddr := Le(params[..6]), randomSet := true) else r
    else if op == OP_SET_ADV_PARAMETERS then
      if |params| >= 15 then r.(advType := params[4], advOwnType := params[5]) else r
    else if op == OP_SET_ADV_DATA then
      if |params| >= 1 then r.(advData := AdParam(params)) else r
    else if op == OP_SET_SCAN_RSP_DATA then
      if |params| >= 1 then r.(rspData := AdParam(params)) else r
    else if op == OP_SET_ADV_ENABLE then SetAdvEnable(r, On(params))
    else if op == OP_SET_SCAN_PARAMETERS then
      if |params| < 1 then r
      else if |params| < 6 then r.(scanType := params[0])
      else r.(scanType := params[0], scanOwnType := params[5])
    else if op == OP_SET_SCAN_ENABLE then SetScanEnable(r, On(params))
    else if op == OP_CREATE_CONN_CANCEL then r.(mode := if r.mode == Initiating then Idle else r.mode)
    else if op == OP_RAND then r.(nextAa := Next(Next(r.nextAa)))
    else r
  }

  predicate IsRegisterCommand(op: nat) {
    op == OP_SET_RANDOM_ADDRESS || op == OP_SET_ADV_PARAMETERS || op == OP_SET_ADV_DATA
    || op == OP_SET_SCAN_RSP_DATA || op == OP_SET_ADV_ENABLE
    || op == OP_SET_SCAN_PARAMETERS || op == OP_SET_SCAN_ENABLE || op == OP_CREATE_CONN_CANCEL
    || op == OP_RAND || op in PLAIN_OPCODES
  }

  function CreateConn(ll: Ll, params: seq<Byte>): Eff {
    if |params| < 13 then Eff(ll, [CmdStatus(OP_CREATE_CONN, UNKNOWN_COMMAND)], [])
    else
      Eff(ll.(regs := ll.regs.(initPeer := Le(params[6..12]), initOwnType := params[12], mode := Initiating)),
          [CmdStatus(OP_CREATE_CONN, SUCCESS)], [])
  }

  function StartEncryption(ll: Ll, params: seq<Byte>): Eff {
    var i := NamedConn(ll, params);
    var status := CmdStatus(OP_START_ENCRYPTION, SUCCESS);
    if i < 0 then Eff(ll, [status], [])
    else
      var c := ll.conns[i];
      var req := (if |params| >= 28 then params[2..12] else Zeros(10)) + Zeros(12);
      Eff(Update(ll, i, c.(encrypting := true)), [status], [Control(ll.regs, c, LL_ENC_REQ, req)])
  }

  function LtkReply(ll: Ll, params: seq<Byte>): Eff {
    var i := FirstHandle(ll.conns, NamedHandle(params), 0);
    var done := CmdComplete(OP_LTK_REPLY, SUCCESS);
    if i < 0 then Eff(ll, [done], [])
    else Eff(ll, [done], [Control(ll.regs, ll.conns[i], LL_START_ENC_REQ, [])])
  }

  function Disconnect(ll: Ll, params: seq<Byte>): Eff {
    var i := if |params| >= 3 then NamedConn(ll, params) else -1;
    var status := CmdStatus(OP_DISCONNECT, SUCCESS);
    if i < 0 then Eff(ll, [status], [])
    else
      var c := ll.conns[i];
      Eff(Update(ll, i, c.(active := false)),
          [status, DisconnComplete(c.handle, TERM_LOCAL_HOST)],
          [Control(ll.regs, c, LL_TERMINATE_IND, [params[2]])])
  }

  /** The commands that send nothing on a link. */
  function LocalCommand(ll: Ll, op: nat, params: seq<Byte>): (e: Eff)
    requires Sized(ll)
    ensures Sized(e.ll)
  {
    if op == OP_RESET then Complete(Reset(ll), op)
    else if IsRegisterCommand(op) then Complete(ll.(regs := RegisterCommand(ll.regs, op, params)), op)
    else if op == OP_CREATE_CONN then CreateConn(ll, params)
    else if op == OP_CONN_UPDATE then
      Eff(ll, [CmdStatus(op, SUCCESS)]
              + (if NamedConn(ll, params) >= 0 then [ConnUpdated(NamedHandle(params))] else []), [])
    else if op == OP_READ_REMOTE_FEATURES then
      Eff(ll, [CmdStatus(op, SUCCESS)] + (if |params| >= 2 then [RemoteFeatures(NamedHandle(params))] else []), [])
    else if op == OP_READ_REMOTE_VERSION then
      Eff(ll, [CmdStatus(op, SUCCESS)] + (if |params| >= 2 then [RemoteVersion(NamedHandle(params))] else []), [])
    else Eff(ll, [CmdComplete(op, UNKNOWN_COMMAND)], [])
  }

  function Perform(ll: Ll, op: nat, params: seq<Byte>): (e: Eff)
    requires Sized(ll)
    ensures Sized(e.ll)
  {
    if op == OP_START_ENCRYPTION then StartEncryption(ll, params)
    else if op == OP_LTK_REPLY then LtkReply(ll, params)
    else if op == OP_DISCONNECT then Disconnect(ll, params)
    else LocalCommand(ll, op, params)
  }

  /** The parameters of a command packet: as many as it says and as it holds. */
  function Params(pkt: seq<Byte>): seq<Byte>
    requires |pkt| >= 4
  {
    pkt[4..4 + Min(pkt[3], |pkt| - 4)]
  }

  /** An HCI command packet. */
  function Command(ll: Ll, pkt: seq<Byte>): (e: Eff)
    requires Sized(ll)
    ensures Sized(e.ll)
  {
    if |pkt| < 4 then Eff(ll, [], []) else Perform(ll, U16(pkt, 1), Params(pkt))
  }

  /** An ACL packet from the host: one PDU on the link, one credit back. */
  function AclFromHost(ll: Ll, pkt: seq<Byte>): (e: Eff)
    requires Sized(ll)
    ensures e.ll == ll
  {
    if |pkt| < 5 then Eff(ll, [], [])
    else
      var h := U16(pkt, 1) % 0x1000;
      var i := FirstHandle(ll.conns, h, 0);
      if i < 0 then Eff(ll, [], [])
      else Eff(ll, [NumCompleted(h)], [DataFrame(ll.regs, ll.conns[i], DataPdu(LLID_START, AclPayload(pkt)))])
  }

  /** The payload of an ACL packet, cut to what the packet holds and to the MTU. */
  function AclPayload(pkt: seq<Byte>): (r: seq<Byte>)
    requires |pkt| >= 5
    ensures |r| <= ACL_MTU
  {
    pkt[5..5 + Min(Min(U16(pkt, 3), |pkt| - 5), ACL_MTU)]
  }

  function FromHost(ll: Ll, pkt: seq<Byte>): (e: Eff)
    requires Sized(ll)
    ensures Sized(e.ll)
  {
    if |pkt| < 1 then Eff(ll, [], [])
    else if pkt[0] == CMD_PKT then Command(ll, pkt)
    else if pkt[0] == ACL_PKT then AclFromHost(ll, pkt)
    else Eff(ll, [], [])
  }

  // ---------------------------------------------------------- PDUs from the medium

  /** The initiator has heard its target: a connection is made and announced. */
  function Initiate(ll: Ll, i: nat, adva: Addr, atype: nat): (e: Eff)
    requires Sized(ll) && i < MAX_CONN
    ensures Sized(e.ll)
  {
    var x := Next(ll.regs.nextAa);
    var c := LlConn(true, BASE_HANDLE + i, AccessAddr(x), CENTRAL, adva, atype, false, false);
    var inita := OwnAddr(ll.regs, ll.regs.initOwnType);
    Eff(Ll(ll.regs.(nextAa := x, mode := Idle, scanEnabled := false), ll.conns[i := c]),
        [ConnComplete(c.handle, CENTRAL, atype, adva)],
        [AdvFrame(inita, ConnectPdu(inita, ll.regs.initOwnType % 2, adva, atype, c.aa))])
  }

  /** Somebody connects to this advertiser. */
  function Accept(ll: Ll, i: nat, inita: Addr, itype: nat, aa: nat): (e: Eff)
    requires Sized(ll) && i < MAX_CONN
    ensures Sized(e.ll)
  {
    var c := LlConn(true, BASE_HANDLE + i, aa, PERIPHERAL, inita, itype, false, false);
    Eff(Ll(ll.regs.(advEnabled := false, mode := Idle), ll.conns[i := c]),
        [ConnComplete(c.handle, PERIPHERAL, itype, inita)], [])
  }

  predicate Connectable(kind: nat) {
    kind == ADV_IND || kind == ADV_DIRECT_IND
  }

  function ReportKind(kind: nat): nat {
    if kind == ADV_IND then 0 else if kind == ADV_DIRECT_IND then 1 else if kind == ADV_SCAN_IND then 2 else 3
  }

  /** An advertisement of a scanned device, and the request for more. */
  function Report(ll: Ll, hdr: Hdr, kind: nat, txadd: nat, adva: Addr, data: seq<Byte>): (e: Eff)
    requires kind < 16
    ensures e.ll == ll
  {
    if !ll.regs.scanEnabled then Eff(ll, [], [])
    else
      var sa := OwnAddr(ll.regs, ll.regs.scanOwnType);
      Eff(ll, [AdvReport(ReportKind(kind), txadd, adva, data, hdr.rssi)],
          if ll.regs.scanType == 1 && (kind == ADV_IND || kind == ADV_SCAN_IND)
          then [AdvFrame(sa, [TypeBits(SCAN_REQ, ll.regs.scanOwnType % 2, txadd), 12] + LeBytes(sa, 6) + LeBytes(adva, 6))]
          else [])
  }

  function HearAdvertisement(ll: Ll, hdr: Hdr, kind: nat, txadd: nat, adva: Addr, data: seq<Byte>): (e: Eff)
    requires Sized(ll) && kind < 16
    ensures Sized(e.ll)
  {
    if ll.regs.mode == Initiating && Connectable(kind) && adva == ll.regs.initPeer then
      var i := FirstIdle(ll.conns, 0);
      if i < 0 then Eff(ll, [], []) else Initiate(ll, i, adva, txadd)
    else Report(ll, hdr, kind, txadd, adva, data)
  }

  function HearConnect(ll: Ll, itype: nat, body: seq<Byte>): (e: Eff)
    requires Sized(ll)
    ensures Sized(e.ll)
  {
    if !ll.regs.advEnabled || |body| < 34 then Eff(ll, [], [])
    else if Le(body[6..12]) != OwnAddr(ll.regs, ll.regs.advOwnType) then Eff(ll, [], [])
    else
      var i := FirstIdle(ll.conns, 0);
      if i < 0 then Eff(ll, [], []) else Accept(ll, i, Le(body[..6]), itype, Le(body[12..16]))
  }

  /** The octets of a PDU's body: as many as its length octet says and as there are. */
  function Body(pdu: seq<Byte>): (r: seq<Byte>)
    requires |pdu| >= 2
    ensures |r| < 256
  {
    pdu[2..2 + Min(pdu[1], |pdu| - 2)]
  }

  function TxAdd(pdu: seq<Byte>): nat
    requires |pdu| >= 1
  {
    if pdu[0] / 0x40 % 2 == 1 then 1 else 0
  }

  function HearAdvPdu(ll: Ll, hdr: Hdr, pdu: seq<Byte>): (e: Eff)
    requires Sized(ll) && |pdu| >= 2
    ensures Sized(e.ll)
  {
    var kind := pdu[0] % 16;
    var body := Body(pdu);
    if kind == ADV_IND || kind == ADV_DIRECT_IND || kind == ADV_NONCONN_IND || kind == ADV_SCAN_IND then
      if |body| < 6 then Eff(ll, [], []) else HearAdvertisement(ll, hdr, kind, TxAdd(pdu), Le(body[..6]), body[6..])
    else if kind == SCAN_REQ then
      var self := OwnAddr(ll.regs, ll.regs.advOwnType);
      if ll.regs.advEnabled && |body| >= 12 && Le(body[6..12]) == self
      then Eff(ll, [], [AdvFrame(self, ShowPdu(SCAN_RSP, ll.regs.advOwnType % 2, self, ll.regs.rspData))])
      else Eff(ll, [], [])
    else if kind == SCAN_RSP then
      if ll.regs.scanEnabled && |body| >= 6
      then Eff(ll, [AdvReport(4, TxAdd(pdu), Le(body[..6]), body[6..], hdr.rssi)], [])
      else Eff(ll, [], [])
    else if kind == CONNECT_IND then HearConnect(ll, TxAdd(pdu), body)
    else Eff(ll, [], [])
  }

  function HearDataPdu(ll: Ll, aa: nat, pdu: seq<Byte>): (e: Eff)
    requires Sized(ll) && |pdu| >= 2
    ensures Sized(e.ll)
  {
    var i := FirstAa(ll.conns, aa, 0);
    var body := Body(pdu);
    if i < 0 then Eff(ll, [], [])
    else if pdu[0] % 4 == LLID_CONTROL then HandleControl(ll, i, body)
    else if (pdu[0] % 4 == LLID_START || pdu[0] % 4 == LLID_CONT) && |body| > 0
    then Eff(ll, [AclUp(ll.conns[i].handle, body)], [])
    else Eff(ll, [], [])
  }

  function FromMedium(ll: Ll, hdr: Hdr, pdu: seq<Byte>): (e: Eff)
    requires Sized(ll)
    ensures Sized(e.ll)
  {
    if |pdu| < 2 then Eff(ll, [], [])
    else if hdr.llType == LL_ADV then HearAdvPdu(ll, hdr, pdu)
    else if hdr.llType == LL_DATA then HearDataPdu(ll, hdr.aa, pdu)
    else Eff(ll, [], [])
  }

  /** The kind of PDU of each advertising type. */
  function AdvKind(advType: nat): (kind: nat)
    ensures kind < 16
  {
    if advType == 2 || advType == 3 then ADV_NONCONN_IND else if advType == 6 then ADV_SCAN_IND else ADV_IND
  }

  /** The periodic tick: an enabled advertiser advertises on three channels when due. */
  function Tick(ll: Ll, now: nat): (e: Eff)
    requires Sized(ll)
    ensures Sized(e.ll)
  {
    if ll.regs.advEnabled && (ll.regs.lastAdv == 0 || (now - ll.regs.lastAdv) % CLOCK_RANGE >= ADV_INTERVAL_MS) then
      var adva := OwnAddr(ll.regs, ll.regs.advOwnType);
      var f := AdvFrame(adva, ShowPdu(AdvKind(ll.regs.advType), ll.regs.advOwnType % 2, adva, ll.regs.advData));
      Eff(ll.(regs := ll.regs.(lastAdv := now)), [], [f, f, f])
    else Eff(ll, [], [])
  }

  /** A fresh controller; the generator is seeded from its address. */
  function Seed(octets: seq<Byte>, i: nat): nat
    requires i <= |octets|
  {
    if i == 0 then 0x811c9dc5 else (Seed(octets, i - 1) * 33 + octets[i - 1]) % MODULUS
  }

  function New(bdaddr: seq<Byte>): (ll: Ll)
    requires |bdaddr| == 6
    ensures Sized(ll)
  {
    Ll(Regs(Le(bdaddr), ZERO_ADDR, false, Idle, false, 0, 0, 0, [], [], false, 0, 0, ZERO_ADDR, 0, Seed(bdaddr, 6)),
       seq(MAX_CONN, _ => BLANK_CONN))
  }

  // ------------------------------------------------------------------------ runs

  datatype Input = Host(pkt: seq<Byte>) | Medium(hdr: Hdr, pdu: seq<Byte>) | Clock(now: nat)

  function Step(ll: Ll, x: Input): (e: Eff)
    requires Sized(ll)
    ensures Sized(e.ll)
  {
    match x
    case Host(pkt) => FromHost(ll, pkt)
    case Medium(hdr, pdu) => FromMedium(ll, hdr, pdu)
    case Clock(now) => Tick(ll, now)
  }
}
