/** What a host sets is what its controller uses and shows: over every run each register
    holds the octets of the last command that carried them. */
module Settings {
  import opened Wire
  import opened Lcg
  import opened LinkLayer
  import opened Hci
  import opened Provenance

  // ----------------------------------------------------------------- commands

  /** A command packet with these opcode octets and at least n parameter octets. */
  predicate IsCmd(x: Input, low: Byte, high: Byte, n: nat) {
    x.Host? && |x.pkt| >= 4 + n && x.pkt[0] == 1 && x.pkt[1] == low && x.pkt[2] == high && x.pkt[3] >= n
  }

  /** The last such packet of a run. */
  function Last(xs: seq<Input>, low: Byte, high: Byte, n: nat): (r: Option<seq<Byte>>)
    ensures r.Some? ==> |r.value| >= 4 + n && r.value[3] >= n
  {
    if xs == [] then None
    else if IsCmd(xs[|xs| - 1], low, high, n) then Some(xs[|xs| - 1].pkt)
    else Last(xs[..|xs| - 1], low, high, n)
  }

  /** The data of a Set Data packet: as many octets as its first parameter says, up to 31, and
      zeros where the packet is too short. */
  function DataOf(pkt: seq<Byte>): (r: seq<Byte>)
    requires |pkt| >= 5 && pkt[3] >= 1
    ensures |r| == Min(pkt[4], 31)
    ensures forall i :: 0 <= i < |r| ==> r[i] == if i + 1 < pkt[3] && 5 + i < |pkt| then pkt[5 + i] else 0
  {
    seq(Min(pkt[4], 31), i requires 0 <= i => if i + 1 < pkt[3] && 5 + i < |pkt| then pkt[5 + i] else 0)
  }

  /** What one input does to the registers that only the host sets. */
  ghost predicate Moves(r: Regs, x: Input, t: Regs) {
    && t.publicAddr == r.publicAddr
    && t.initPeer == (if IsCmd(x, 0x0D, 0x20, 13) then Le(x.pkt[10..16]) else r.initPeer)
    && t.initOwnType == (if IsCmd(x, 0x0D, 0x20, 13) then x.pkt[16] else r.initOwnType)
    && t.randomAddr == (if IsCmd(x, 0x05, 0x20, 6) then Le(x.pkt[4..10]) else r.randomAddr)
    && t.randomSet == (IsCmd(x, 0x05, 0x20, 6) || r.randomSet)
    && t.advType == (if IsCmd(x, 0x06, 0x20, 15) then x.pkt[8] else r.advType)
    && t.advOwnType == (if IsCmd(x, 0x06, 0x20, 15) then x.pkt[9] else r.advOwnType)
    && t.advData == (if IsCmd(x, 0x08, 0x20, 1) then DataOf(x.pkt) else r.advData)
    && t.rspData == (if IsCmd(x, 0x09, 0x20, 1) then DataOf(x.pkt) else r.rspData)
    && t.scanType == (if IsCmd(x, 0x0B, 0x20, 1) then x.pkt[4] else r.scanType)
    && t.scanOwnType == (if IsCmd(x, 0x0B, 0x20, 6) then x.pkt[9] else r.scanOwnType)
  }

  lemma ParamsAre(pkt: seq<Byte>)
    requires |pkt| >= 4
    ensures |Params(pkt)| == Min(pkt[3], |pkt| - 4) && forall i :: 0 <= i < |Params(pkt)| ==> Params(pkt)[i] == pkt[4 + i]
  {
  }

  lemma SliceIs(pkt: seq<Byte>, i: nat, j: nat)
    requires |pkt| >= 4 && i <= j <= |Params(pkt)|
    ensures j <= |pkt| - 4 && Params(pkt)[i..j] == pkt[4 + i..4 + j]
  {
    ParamsAre(pkt);
    var x, y := Params(pkt)[i..j], pkt[4 + i..4 + j];
    assert |x| == |y| && forall k :: 0 <= k < |x| ==> x[k] == y[k];
  }

  lemma DataIs(pkt: seq<Byte>)
    requires |pkt| >= 5 && pkt[3] >= 1
    ensures |Params(pkt)| >= 1 && AdParam(Params(pkt)) == DataOf(pkt)
  {
    ParamsAre(pkt);
    var params, n := Params(pkt), Min(pkt[4], 31);
    forall i | 0 <= i < n ensures AdParam(params)[i] == DataOf(pkt)[i] {
      if i + 1 < |params| {
        assert (params[1..] + Zeros(AD_MAX))[i] == params[i + 1];
      } else {
        assert (params[1..] + Zeros(AD_MAX))[i] == 0;
      }
    }
  }

  /** Which of the commands of this module a packet is, by its opcode. */
  lemma ByOpcode(x: Input, low: Byte, high: Byte, n: nat)
    requires x.Host? && |x.pkt| >= 4 && x.pkt[0] == CMD_PKT
    ensures IsCmd(x, low, high, n) <==> U16(x.pkt, 1) == low as int + 256 * (high as int) && |Params(x.pkt)| >= n
  {
    ParamsAre(x.pkt);
  }

  lemma Opcodes(x: Input)
    requires x.Host? && |x.pkt| >= 4 && x.pkt[0] == CMD_PKT
    ensures var op, n := U16(x.pkt, 1), |Params(x.pkt)|;
      && (IsCmd(x, 0x0D, 0x20, 13) <==> op == 0x200D && n >= 13)
      && (IsCmd(x, 0x05, 0x20, 6) <==> op == 0x2005 && n >= 6)
      && (IsCmd(x, 0x06, 0x20, 15) <==> op == 0x2006 && n >= 15)
      && (IsCmd(x, 0x08, 0x20, 1) <==> op == 0x2008 && n >= 1)
      && (IsCmd(x, 0x09, 0x20, 1) <==> op == 0x2009 && n >= 1)
      && (IsCmd(x, 0x0B, 0x20, 1) <==> op == 0x200B && n >= 1)
      && (IsCmd(x, 0x0B, 0x20, 6) <==> op == 0x200B && n >= 6)
  {
    hide IsCmd;
    ByOpcode(x, 0x0D, 0x20, 13);
    ByOpcode(x, 0x05, 0x20, 6);
    ByOpcode(x, 0x06, 0x20, 15);
    ByOpcode(x, 0x08, 0x20, 1);
    ByOpcode(x, 0x09, 0x20, 1);
    ByOpcode(x, 0x0B, 0x20, 1);
    ByOpcode(x, 0x0B, 0x20, 6);
  }

  /** A command packet moves the registers as its octets say. */
  lemma CommandMoves(ll: Ll, x: Input)
    requires Sized(ll) && x.Host? && |x.pkt| >= 4 && x.pkt[0] == CMD_PKT
    ensures Moves(ll.regs, x, Command(ll, x.pkt).ll.regs)
  {
    hide IsCmd, AdParam, Params, Le, Next, DataOf, Control;
    var op, params := U16(x.pkt, 1), Params(x.pkt);
    Opcodes(x);
    ParamsAre(x.pkt);
    if op == OP_CREATE_CONN && |params| >= 13 {
      SliceIs(x.pkt, 6, 12);
    } else if op == OP_SET_RANDOM_ADDRESS && |params| >= 6 {
      SliceIs(x.pkt, 0, 6);
    } else if (op == OP_SET_ADV_DATA || op == OP_SET_SCAN_RSP_DATA) && |params| >= 1 {
      DataIs(x.pkt);
    }
    CommandRegs(ll, op, params);
  }

  /** What a command does to those registers, told by opcode and parameters. */
  ghost predicate MovesBy(r: Regs, op: nat, params: seq<Byte>, t: Regs) {
    var n := |params|;
    && t.publicAddr == r.publicAddr
    && t.initPeer == (if op == 0x200D && n >= 13 then Le(params[6..12]) else r.initPeer)
    && t.initOwnType == (if op == 0x200D && n >= 13 then params[12] else r.initOwnType)
    && t.randomAddr == (if op == 0x2005 && n >= 6 then Le(params[..6]) else r.randomAddr)
    && t.randomSet == ((op == 0x2005 && n >= 6) || r.randomSet)
    && t.advType == (if op == 0x2006 && n >= 15 then params[4] else r.advType)
    && t.advOwnType == (if op == 0x2006 && n >= 15 then params[5] else r.advOwnType)
    && t.advData == (if op == 0x2008 && n >= 1 then AdParam(params) else r.advData)
    && t.rspData == (if op == 0x2009 && n >= 1 then AdParam(params) else r.rspData)
    && t.scanType == (if op == 0x200B && n >= 1 then params[0] else r.scanType)
    && t.scanOwnType == (if op == 0x200B && n >= 6 then params[5] else r.scanOwnType)
  }

  lemma RegisterRegs(r: Regs, op: nat, params: seq<Byte>)
    requires op != 0x200D
    ensures MovesBy(r, op, params, RegisterCommand(r, op, params))
  {
    hide AdParam, Le, Next;
  }

  lemma LocalRegs(ll: Ll, op: nat, params: seq<Byte>)
    requires Sized(ll)
    ensures MovesBy(ll.regs, op, params, LocalCommand(ll, op, params).ll.regs)
  {
    hide AdParam, Le, RegisterCommand;
    if op != 0x200D {
      RegisterRegs(ll.regs, op, params);
      if !IsRegisterCommand(op) {
        assert RegisterCommand(ll.regs, op, params) == ll.regs by { NoRegisters(ll.regs, op, params); }
      }
    }
  }

  lemma NoRegisters(r: Regs, op: nat, params: seq<Byte>)
    requires !IsRegisterCommand(op)
    ensures RegisterCommand(r, op, params) == r
  {
  }

  lemma CommandRegs(ll: Ll, op: nat, params: seq<Byte>)
    requires Sized(ll)
    ensures MovesBy(ll.regs, op, params, Perform(ll, op, params).ll.regs)
  {
    hide AdParam, Le, Control, LocalCommand;
    LocalRegs(ll, op, params);
  }

  lemma NotCmd(x: Input, low: Byte, high: Byte, n: nat)
    requires !x.Host? || |x.pkt| < 4 || x.pkt[0] != CMD_PKT
    ensures !IsCmd(x, low, high, n)
  {
  }

  /** Anything else leaves them alone. */
  lemma OthersMoveNothing(ll: Ll, x: Input)
    requires Sized(ll) && (!x.Host? || |x.pkt| < 4 || x.pkt[0] != CMD_PKT)
    ensures Moves(ll.regs, x, Step(ll, x).ll.regs)
  {
    hide IsCmd, Next, AccessAddr, ConnectPdu, ShowPdu, TypeBits, LeBytes, Control, RandEdiv, Le;
    forall low: Byte, high: Byte, n: nat ensures !IsCmd(x, low, high, n) {
      NotCmd(x, low, high, n);
    }
  }

  /** Every input moves the host's registers as its octets say. */
  lemma StepMoves(ll: Ll, x: Input)
    requires Sized(ll)
    ensures Moves(ll.regs, x, Step(ll, x).ll.regs)
  {
    hide Moves;
    if x.Host? && |x.pkt| >= 4 && x.pkt[0] == CMD_PKT {
      CommandMoves(ll, x);
    } else {
      OthersMoveNothing(ll, x);
    }
  }

  // ----------------------------------------------------------------------- runs

  function Octet(p: Option<seq<Byte>>, i: nat): nat {
    if p.Some? && i < |p.value| then p.value[i] else 0
  }

  function Octets6(p: Option<seq<Byte>>, i: nat): Addr {
    if p.Some? && i + 6 <= |p.value| then Le(p.value[i..i + 6]) else 0
  }

  function DataIn(p: Option<seq<Byte>>): seq<Byte>
    requires p.Some? ==> |p.value| >= 5 && p.value[3] >= 1
  {
    if p.Some? then DataOf(p.value) else []
  }

  /** The registers hold what the last commands of the run said. */
  ghost predicate Recalls(bdaddr: seq<Byte>, xs: seq<Input>, r: Regs) {
    var conn, random, adv, scan := Last(xs, 0x0D, 0x20, 13), Last(xs, 0x05, 0x20, 6), Last(xs, 0x06, 0x20, 15), Last(xs, 0x0B, 0x20, 6);
    && r.publicAddr == Le(bdaddr)
    && r.initPeer == Octets6(conn, 10) && r.initOwnType == Octet(conn, 16)
    && r.randomAddr == Octets6(random, 4) && r.randomSet == random.Some?
    && r.advType == Octet(adv, 8) && r.advOwnType == Octet(adv, 9)
    && r.advData == DataIn(Last(xs, 0x08, 0x20, 1)) && r.rspData == DataIn(Last(xs, 0x09, 0x20, 1))
    && r.scanType == Octet(Last(xs, 0x0B, 0x20, 1), 4) && r.scanOwnType == Octet(scan, 9)
  }

  /** Over every run: the target of a connection, the addresses, the types and the data are
      the octets of the last command that set them. */
  lemma {:induction false} RegistersAreHistory(bdaddr: seq<Byte>, xs: seq<Input>)
    requires |bdaddr| == 6
    ensures Recalls(bdaddr, xs, After(bdaddr, xs).0.regs)
  {
    hide Step, Le, DataOf, IsCmd, Seed;
    if xs != [] {
      var n := |xs| - 1;
      RegistersAreHistory(bdaddr, xs[..n]);
      StepMoves(After(bdaddr, xs[..n]).0, xs[n]);
      CmdSize(xs[n]);
    }
  }

  lemma CmdSize(x: Input)
    ensures forall low: Byte, high: Byte, n: nat :: IsCmd(x, low, high, n) ==> x.Host? && |x.pkt| >= 4 + n
  {
  }

  // ---------------------------------------------------------------------- modes

  /** The command's first parameter octet is there and not zero. */
  predicate SaysOn(x: Input) {
    x.Host? && |x.pkt| >= 5 && x.pkt[3] >= 1 && x.pkt[4] != 0
  }

  /** The step announces a connection in this role. */
  predicate Announces(e: Eff, role: nat) {
    e.evts != [] && e.evts[0].ConnComplete? && e.evts[0].role == role
  }

  /** When an advertiser advertises. */
  predicate IsDue(r: Regs, now: nat) {
    r.advEnabled && (r.lastAdv == 0 || (now - r.lastAdv) % 0x1_0000_0000_0000_0000 >= 100)
  }

  /** What one input does to mode, switches and clock. */
  ghost predicate Switches(r: Regs, x: Input, e: Eff) {
    var t := e.ll.regs;
    var reset, adv, scan := IsCmd(x, 0x03, 0x0C, 0), IsCmd(x, 0x0A, 0x20, 0), IsCmd(x, 0x0C, 0x20, 0);
    && t.advEnabled == (if adv then SaysOn(x) else r.advEnabled && !reset && !Announces(e, PERIPHERAL))
    && t.scanEnabled == (if scan then SaysOn(x) else r.scanEnabled && !reset && !Announces(e, CENTRAL))
    && t.mode == (if reset || Announces(e, CENTRAL) || Announces(e, PERIPHERAL) then Idle
                  else if IsCmd(x, 0x0D, 0x20, 13) then Initiating
                  else if adv && SaysOn(x) then Advertising
                  else if scan && SaysOn(x) then Scanning
                  else if adv && r.mode == Advertising then Idle
                  else if scan && r.mode == Scanning then Idle
                  else if IsCmd(x, 0x0E, 0x20, 0) && r.mode == Initiating then Idle
                  else r.mode)
    && t.lastAdv == (if adv && SaysOn(x) then 0 else if x.Clock? && IsDue(r, x.now) then x.now else r.lastAdv)
  }

  lemma ModeOpcodes(x: Input)
    requires x.Host? && |x.pkt| >= 4 && x.pkt[0] == CMD_PKT
    ensures var op, params := U16(x.pkt, 1), Params(x.pkt);
      && (IsCmd(x, 0x0D, 0x20, 13) <==> op == 0x200D && |params| >= 13)
      && (IsCmd(x, 0x03, 0x0C, 0) <==> op == 0x0C03) && (IsCmd(x, 0x0A, 0x20, 0) <==> op == 0x200A)
      && (IsCmd(x, 0x0C, 0x20, 0) <==> op == 0x200C) && (IsCmd(x, 0x0E, 0x20, 0) <==> op == 0x200E)
      && (SaysOn(x) <==> On(params))
  {
    hide IsCmd;
    ParamsAre(x.pkt);
    ByOpcode(x, 0x0D, 0x20, 13);
    ByOpcode(x, 0x03, 0x0C, 0);
    ByOpcode(x, 0x0A, 0x20, 0);
    ByOpcode(x, 0x0C, 0x20, 0);
    ByOpcode(x, 0x0E, 0x20, 0);
  }

  lemma RegisterSwitches(r: Regs, op: nat, params: seq<Byte>)
    requires op != 0x200D && op != 0x0C03
    ensures var t := RegisterCommand(r, op, params); var on := On(params);
      && t.advEnabled == (if op == 0x200A then on else r.advEnabled)
      && t.scanEnabled == (if op == 0x200C then on else r.scanEnabled)
      && t.mode == (if op == 0x200A && on then Advertising else if op == 0x200C && on then Scanning
                    else if op == 0x200A && r.mode == Advertising then Idle
                    else if op == 0x200C && r.mode == Scanning then Idle
                    else if op == 0x200E && r.mode == Initiating then Idle
                    else r.mode)
      && t.lastAdv == if op == 0x200A && on then 0 else r.lastAdv
  {
    hide AdParam, Le, Next;
  }

  lemma CommandSwitches(ll: Ll, x: Input)
    requires Sized(ll) && x.Host? && |x.pkt| >= 4 && x.pkt[0] == CMD_PKT
    ensures Switches(ll.regs, x, Command(ll, x.pkt))
  {
    hide IsCmd, SaysOn, AdParam, Params, Le, RegisterCommand, Control, On;
    var op, params := U16(x.pkt, 1), Params(x.pkt);
    ModeOpcodes(x);
    if op != 0x200D && op != 0x0C03 {
      RegisterSwitches(ll.regs, op, params);
      if !IsRegisterCommand(op) {
        NoRegisters(ll.regs, op, params);
      }
    }
  }

  lemma OthersSwitchNothing(ll: Ll, x: Input)
    requires Sized(ll) && (!x.Host? || |x.pkt| < 4 || x.pkt[0] != CMD_PKT)
    ensures Switches(ll.regs, x, Step(ll, x))
  {
    hide IsCmd, Next, AccessAddr, ConnectPdu, ShowPdu, TypeBits, LeBytes, Control, RandEdiv, Le;
    forall low: Byte, high: Byte, n: nat ensures !IsCmd(x, low, high, n) {
      NotCmd(x, low, high, n);
    }
  }

  /** Every input moves mode and switches as its octets and the connections made say. */
  lemma StepSwitches(ll: Ll, x: Input)
    requires Sized(ll)
    ensures Switches(ll.regs, x, Step(ll, x))
  {
    hide Switches;
    if x.Host? && |x.pkt| >= 4 && x.pkt[0] == CMD_PKT {
      CommandSwitches(ll, x);
    } else {
      OthersSwitchNothing(ll, x);
    }
  }

  // ------------------------------------------------------------------- what is shown

  /** The address that stands in PDUs of this own-address type. */
  function Self(r: Regs, ownType: nat): Addr {
    if ownType % 2 == 0 then r.publicAddr else if r.randomSet then r.randomAddr else r.publicAddr
  }

  /** The octets of a PDU that shows an address and data. */
  predicate Shows(pdu: seq<Byte>, kind: nat, atype: nat, addr: Addr, data: seq<Byte>) {
    && |pdu| == 8 + |data| && pdu[0] == kind + (if atype % 2 == 1 then 0x40 else 0) && pdu[1] == 6 + |data|
    && Le(pdu[2..8]) == addr && pdu[8..] == data
  }

  /** The PDU kind of an advertising type: connectable unless it is 2, 3 (neither connectable
      nor scannable) or 6 (scannable). */
  function Kind(advType: nat): nat {
    if advType == 6 then 6 else if advType == 2 || advType == 3 then 2 else 0
  }

  lemma ShowPduShows(kind: nat, atype: nat, addr: Addr, data: AdOctets)
    requires kind < 16 && Below(addr, 6)
    ensures Shows(ShowPdu(kind, atype % 2, addr, data), kind, atype, addr, data)
  {
    LeRoundTrip(addr, 6);
    var pdu := ShowPdu(kind, atype % 2, addr, data);
    assert pdu[2..8] == LeBytes(addr, 6) && pdu[8..] == data;
  }

  /** A tick shows three times the address and the data set, when it is due, and else does
      nothing. */
  lemma TickShows(ll: Ll, now: nat)
    requires Sized(ll) && AddrsFit(ll.regs)
    ensures var r, e := ll.regs, Step(ll, Clock(now));
      if !IsDue(r, now) then e == Eff(ll, [], [])
      else
        && e.evts == [] && e.pdus == [e.pdus[0], e.pdus[0], e.pdus[0]] && e.ll == ll.(regs := r.(lastAdv := now))
        && e.pdus[0].hdr == Hdr(ADV_ACCESS_ADDR, 0, Self(r, r.advOwnType), LL_ADV, -40)
        && Shows(e.pdus[0].pdu, Kind(r.advType), r.advOwnType, Self(r, r.advOwnType), r.advData)
  {
    hide ShowPdu, Shows;
    OwnAddrFits(ll.regs, ll.regs.advOwnType);
    ShowPduShows(Kind(ll.regs.advType), ll.regs.advOwnType, Self(ll.regs, ll.regs.advOwnType), ll.regs.advData);
  }

  lemma BodySlice(pdu: seq<Byte>, i: nat, j: nat)
    requires |pdu| >= 2 && i <= j <= |Body(pdu)|
    ensures 2 + j <= |pdu| && Body(pdu)[i..j] == pdu[2 + i..2 + j]
  {
    var x, y := Body(pdu)[i..j], pdu[2 + i..2 + j];
    assert |x| == |y| && forall k :: 0 <= k < |x| ==> x[k] == y[k];
  }

  /** A scan request is answered, with the data set, if and only if the controller advertises
      and the request names its address. */
  lemma ScanShows(ll: Ll, hdr: Hdr, pdu: seq<Byte>)
    requires Sized(ll) && AddrsFit(ll.regs) && hdr.llType == LL_ADV
    requires |pdu| >= 2 && pdu[0] % 16 == SCAN_REQ
    ensures var r, e := ll.regs, Step(ll, Medium(hdr, pdu));
      && e.ll == ll && e.evts == []
      && if r.advEnabled && |pdu| >= 14 && pdu[1] >= 12 && Le(pdu[8..14]) == Self(r, r.advOwnType)
         then
           && |e.pdus| == 1 && e.pdus[0].hdr == Hdr(ADV_ACCESS_ADDR, 0, Self(r, r.advOwnType), LL_ADV, -40)
           && Shows(e.pdus[0].pdu, SCAN_RSP, r.advOwnType, Self(r, r.advOwnType), r.rspData)
         else e.pdus == []
  {
    hide ShowPdu, Shows, Le;
    OwnAddrFits(ll.regs, ll.regs.advOwnType);
    ShowPduShows(SCAN_RSP, ll.regs.advOwnType, Self(ll.regs, ll.regs.advOwnType), ll.regs.rspData);
    if |pdu| >= 14 && pdu[1] >= 12 {
      BodySlice(pdu, 6, 12);
    }
  }

  /** What a scanner makes of a PDU that shows an address and data. */
  lemma ShownIsTold(b: Ll, hdr: Hdr, pdu: seq<Byte>, kind: nat, atype: nat, addr: Addr, data: AdOctets)
    requires Sized(b) && hdr.llType == LL_ADV && Shows(pdu, kind, atype, addr, data) && kind in {0, 1, 2, 6, 4}
    requires b.regs.scanEnabled && b.regs.mode != Initiating
    ensures var e := Step(b, Medium(hdr, pdu));
      e.ll == b && e.evts == [AdvReport(match kind case 0 => 0 case 1 => 1 case 6 => 2 case 4 => 4 case _ => 3, atype % 2, addr, data, hdr.rssi)]
  {
    hide Le, TypeBits, LeBytes;
    assert pdu[0] % 16 == kind && TxAdd(pdu) == atype % 2;
    BodySlice(pdu, 0, 6);
    BodySlice(pdu, 6, 6 + |data|);
    assert Body(pdu)[..6] == pdu[2..8] && Body(pdu)[6..] == pdu[8..];
  }

  /** Set, then shown: over every run of an advertiser, whatever scanner hears one of its
      advertisements tells its host the address and the data that the advertiser's host set
      last. */
  lemma SetThenReported(bdaddr: seq<Byte>, xs: seq<Input>, now: nat, b: Ll, hdr: Hdr)
    requires |bdaddr| == 6 && IsDue(After(bdaddr, xs).0.regs, now)
    requires Sized(b) && b.regs.scanEnabled && b.regs.mode != Initiating && hdr.llType == LL_ADV
    ensures var a := After(bdaddr, xs).0; var tick := Step(a, Clock(now));
      && tick.pdus != []
      && var e := Step(b, Medium(hdr, tick.pdus[0].pdu));
      && |e.evts| == 1 && e.evts[0].AdvReport? && e.evts[0].addr == Self(a.regs, a.regs.advOwnType)
      && e.evts[0].data == DataIn(Last(xs, 0x08, 0x20, 1))
  {
    hide Step, Shows, DataIn, Last;
    var a := After(bdaddr, xs).0;
    RunAddrsFit(bdaddr, xs);
    RegistersAreHistory(bdaddr, xs);
    TickShows(a, now);
    ShownIsTold(b, hdr, Step(a, Clock(now)).pdus[0].pdu, Kind(a.regs.advType), a.regs.advOwnType, Self(a.regs, a.regs.advOwnType), a.regs.advData);
  }

  /** Asked, then shown: the answer to a scan request that names the advertiser carries the
      scan response data that its host set last, and the scanner's host is told it. */
  lemma SetThenScanned(bdaddr: seq<Byte>, xs: seq<Input>, req: seq<Byte>, b: Ll, hdr: Hdr)
    requires |bdaddr| == 6 && hdr.llType == LL_ADV && |req| >= 14 && req[0] % 16 == SCAN_REQ && req[1] >= 12
    requires var r := After(bdaddr, xs).0.regs; r.advEnabled && Le(req[8..14]) == Self(r, r.advOwnType)
    requires Sized(b) && b.regs.scanEnabled && b.regs.mode != Initiating
    ensures var a := After(bdaddr, xs).0; var f := Step(a, Medium(hdr, req));
      && f.pdus != []
      && var e := Step(b, Medium(hdr, f.pdus[0].pdu));
      && |e.evts| == 1 && e.evts[0].AdvReport? && e.evts[0].kind == 4 && e.evts[0].addr == Self(a.regs, a.regs.advOwnType)
      && e.evts[0].data == DataIn(Last(xs, 0x09, 0x20, 1))
  {
    hide Step, Shows, DataIn, Last, Le;
    var a := After(bdaddr, xs).0;
    RunAddrsFit(bdaddr, xs);
    RegistersAreHistory(bdaddr, xs);
    ScanShows(a, hdr, req);
    ShownIsTold(b, hdr, Step(a, Medium(hdr, req)).pdus[0].pdu, SCAN_RSP, a.regs.advOwnType, Self(a.regs, a.regs.advOwnType), a.regs.rspData);
  }

  /** An active scanner asks a scannable advertiser for more, by its address. */
  lemma ScannerAsks(b: Ll, hdr: Hdr, pdu: seq<Byte>, kind: nat, atype: nat, addr: Addr, data: AdOctets)
    requires Sized(b) && AddrsFit(b.regs) && hdr.llType == LL_ADV && Shows(pdu, kind, atype, addr, data) && Below(addr, 6)
    requires kind in {0, 1, 2, 6} && b.regs.scanEnabled && b.regs.mode != Initiating
    ensures var r, e := b.regs, Step(b, Medium(hdr, pdu));
      if r.scanType == 1 && (kind == 0 || kind == 6)
      then
        && |e.pdus| == 1 && e.pdus[0].hdr == Hdr(ADV_ACCESS_ADDR, 0, Self(r, r.scanOwnType), LL_ADV, -40)
        && var req := e.pdus[0].pdu;
        && |req| == 14 && req[0] == 3 + 0x40 * (r.scanOwnType % 2) + 0x80 * (atype % 2) && req[1] == 12
        && Le(req[2..8]) == Self(r, r.scanOwnType) && Le(req[8..14]) == addr
      else e.pdus == []
  {
    hide Le, LeBytes;
    assert pdu[0] % 16 == kind && TxAdd(pdu) == atype % 2;
    BodySlice(pdu, 0, 6);
    assert Body(pdu)[..6] == pdu[2..8];
    if b.regs.scanType == 1 && (kind == 0 || kind == 6) {
      OwnAddrFits(b.regs, b.regs.scanOwnType);
      AskOctets(b.regs.scanOwnType, Self(b.regs, b.regs.scanOwnType), atype % 2, addr);
    }
  }

  lemma AskOctets(own: nat, sa: Addr, txadd: nat, addr: Addr)
    requires Below(sa, 6) && Below(addr, 6)
    ensures var req := [TypeBits(SCAN_REQ, own % 2, txadd), 12] + LeBytes(sa, 6) + LeBytes(addr, 6);
      |req| == 14 && Le(req[2..8]) == sa && Le(req[8..14]) == addr
  {
    LeRoundTrip(sa, 6);
    LeRoundTrip(addr, 6);
    var req := [TypeBits(SCAN_REQ, own % 2, txadd), 12] + LeBytes(sa, 6) + LeBytes(addr, 6);
    assert req[2..8] == LeBytes(sa, 6) && req[8..14] == LeBytes(addr, 6);
  }

  lemma {:induction false} RunAddrsFit(bdaddr: seq<Byte>, xs: seq<Input>)
    requires |bdaddr| == 6
    ensures AddrsFit(After(bdaddr, xs).0.regs)
  {
    hide Step, Le, Seed;
    if xs == [] {
      LeBelow(bdaddr);
      ZeroFits();
    } else {
      RunAddrsFit(bdaddr, xs[..|xs| - 1]);
      AddrsStayFit(After(bdaddr, xs[..|xs| - 1]).0, xs[|xs| - 1]);
    }
  }

  lemma ZeroFits()
    ensures Below(0, 6)
  {
    assert Below(0, 0) && Below(0, 1) && Below(0, 2) && Below(0, 3) && Below(0, 4);
  }

  // ------------------------------------------------------------ replies to commands

  /** The opcodes that are known, and those of them that are answered by a Command Status. */
  const KNOWN: set<nat> := {
    0x0406, 0x041D, 0x0C01, 0x0C03, 0x0C63, 0x1001, 0x1002, 0x1003, 0x1005, 0x1009,
    0x2001, 0x2002, 0x2003, 0x2005, 0x2006, 0x2007, 0x2008, 0x2009, 0x200A, 0x200B, 0x200C, 0x200D, 0x200E, 0x200F,
    0x2010, 0x2011, 0x2012, 0x2013, 0x2014, 0x2016, 0x2017, 0x2018, 0x2019, 0x201A, 0x201B, 0x201C
  }
  const DEFERRED: set<nat> := {0x0406, 0x041D, 0x200D, 0x2013, 0x2016, 0x2019}

  predicate HasHandle(ll: Ll, h: nat) {
    exists i :: 0 <= i < |ll.conns| && ll.conns[i].active && ll.conns[i].handle == h
  }

  /** What a command makes its controller tell the host at once: success, unless the opcode is
      unknown or a connection is asked for in too few octets; and the outcome of those that
      are about a connection. */
  ghost function Replies(ll: Ll, op: nat, params: seq<Byte>): seq<Evt> {
    var n := |params|;
    var status := if op !in KNOWN || (op == 0x200D && n < 13) then 1 else 0;
    var h := if n >= 2 then params[0] as int + 256 * (params[1] as int) else 0;
    [if op in DEFERRED then CmdStatus(op, status) else CmdComplete(op, status)]
    + if op == 0x0406 && n >= 3 && HasHandle(ll, h) then [DisconnComplete(h, 0x16)]
      else if op == 0x2013 && n >= 2 && HasHandle(ll, h) then [ConnUpdated(h)]
      else if op == 0x2016 && n >= 2 then [RemoteFeatures(h)]
      else if op == 0x041D && n >= 2 then [RemoteVersion(h)]
      else []
  }

  lemma HandleFound(ll: Ll, h: nat)
    ensures HasHandle(ll, h) <==> FirstHandle(ll.conns, h, 0) >= 0
  {
  }

  lemma RegisterReplies(ll: Ll, op: nat, params: seq<Byte>)
    requires IsRegisterCommand(op)
    ensures Replies(ll, op, params) == [CmdComplete(op, 0)]
  {
  }

  lemma UnknownReplies(ll: Ll, op: nat, params: seq<Byte>)
    requires !IsRegisterCommand(op) && op !in DEFERRED && op != OP_RESET && op != OP_LTK_REPLY
    ensures Replies(ll, op, params) == [CmdComplete(op, 1)]
  {
  }

  /** Every command packet with a whole header tells the host exactly that. */
  lemma CommandReplies(ll: Ll, pkt: seq<Byte>)
    requires Sized(ll) && |pkt| >= 4 && pkt[0] == 1
    ensures Step(ll, Host(pkt)).evts == Replies(ll, pkt[1] as int + 256 * (pkt[2] as int), Params(pkt))
  {
    hide IsRegisterCommand, RegisterCommand, Params, Control, HasHandle;
    var op, params := U16(pkt, 1), Params(pkt);
    if |params| >= 2 {
      HandleFound(ll, U16(params, 0));
    }
    if IsRegisterCommand(op) {
      RegisterReplies(ll, op, params);
      NotDeferred(op);
    } else if op !in DEFERRED && op != OP_RESET && op != OP_LTK_REPLY {
      UnknownReplies(ll, op, params);
    }
  }

  lemma NotDeferred(op: nat)
    requires IsRegisterCommand(op)
    ensures op !in DEFERRED && op != OP_RESET && op != OP_LTK_REPLY
  {
  }

  // --------------------------------------------------------------- what is not told

  /** The PDU holds the address of its advertiser. */
  predicate Addressed(pdu: seq<Byte>) {
    |pdu| >= 8 && pdu[1] >= 6
  }

  /** An advertisement of the initiator's target. */
  predicate Awaited(r: Regs, pdu: seq<Byte>) {
    Addressed(pdu) && r.mode == Initiating && (pdu[0] % 16 == 0 || pdu[0] % 16 == 1) && Le(pdu[2..8]) == r.initPeer
  }

  lemma AddressRead(pdu: seq<Byte>)
    requires |pdu| >= 2
    ensures Addressed(pdu) <==> |Body(pdu)| >= 6
    ensures Addressed(pdu) ==> Le(Body(pdu)[..6]) == Le(pdu[2..8])
  {
    if Addressed(pdu) {
      BodySlice(pdu, 0, 6);
      assert Body(pdu)[..6] == Body(pdu)[0..6] && pdu[2 + 0..2 + 6] == pdu[2..8];
    }
  }

  /** The host is told of an advertisement or a scan response if and only if it scans and the
      PDU holds an address; an initiator that hears its target connects instead. */
  lemma ReportsIff(ll: Ll, hdr: Hdr, pdu: seq<Byte>)
    requires Sized(ll) && hdr.llType == LL_ADV
    ensures var e := Step(ll, Medium(hdr, pdu));
      (e.evts != [] && e.evts[0].AdvReport?) <==>
        && ll.regs.scanEnabled && Addressed(pdu) && pdu[0] % 16 in {0, 1, 2, 4, 6} && !Awaited(ll.regs, pdu)
  {
    hide Le, ConnectPdu, ShowPdu, LeBytes, TypeBits, Body;
    if |pdu| >= 2 {
      AddressRead(pdu);
    }
  }

  /** Who neither scans nor advertises nor initiates hears nothing from the air; and frames of
      other classes, and PDUs without a header, are nothing to anybody. */
  lemma DeafToTheAir(ll: Ll, hdr: Hdr, pdu: seq<Byte>)
    requires Sized(ll)
    requires |pdu| < 2 || (hdr.llType != LL_ADV && hdr.llType != LL_DATA)
      || (hdr.llType == LL_ADV && !ll.regs.scanEnabled && !ll.regs.advEnabled && ll.regs.mode != Initiating)
    ensures Step(ll, Medium(hdr, pdu)) == Eff(ll, [], [])
  {
    hide Le, ConnectPdu, ShowPdu, LeBytes, TypeBits, Body;
  }

  // ------------------------------------------------------------- headers of data frames

  /** A data frame carries the Access Address of a live connection, and the own address of the
      type that its role uses. */
  ghost predicate OwnFrame(ll: Ll, s: Sent) {
    s.hdr.llType == LL_DATA ==>
      exists i :: 0 <= i < |ll.conns| && ll.conns[i].active
        && s.hdr == Hdr(ll.conns[i].aa, 0, Self(ll.regs, if ll.conns[i].role == 1 then ll.regs.advOwnType else ll.regs.initOwnType), LL_DATA, -40)
  }

  lemma DataFrameOwn(ll: Ll, i: nat, pdu: seq<Byte>)
    requires i < |ll.conns| && ll.conns[i].active
    ensures OwnFrame(ll, DataFrame(ll.regs, ll.conns[i], pdu))
  {
  }

  /** Every data frame that a controller sends is one of its own. */
  lemma FramesAreOwn(ll: Ll, x: Input)
    requires Sized(ll)
    ensures forall s :: s in Step(ll, x).pdus ==> OwnFrame(ll, s)
  {
    match x
    case Host(pkt) => HostFrames(ll, x);
    case Medium(hdr, pdu) => AirFrames(ll, hdr, pdu);
    case Clock(now) =>
  }

  lemma HostFrames(ll: Ll, x: Input)
    requires Sized(ll) && x.Host?
    ensures forall s :: s in Step(ll, x).pdus ==> OwnFrame(ll, s)
  {
    hide OwnFrame, DataFrame, DataPdu, RegisterCommand, IsRegisterCommand, AclPayload, Params;
    forall s | s in Step(ll, x).pdus ensures OwnFrame(ll, s) {
      if x.pkt[0] == CMD_PKT {
        var params := Params(x.pkt);
        var i := FirstHandle(ll.conns, NamedHandle(params), 0);
        DataFrameOwn(ll, i, s.pdu);
        assert s == DataFrame(ll.regs, ll.conns[i], s.pdu) by { SamePdu(ll.regs, ll.conns[i], s); }
      } else {
        var i := FirstHandle(ll.conns, U16(x.pkt, 1) % 0x1000, 0);
        DataFrameOwn(ll, i, DataPdu(LLID_START, AclPayload(x.pkt)));
      }
    }
  }

  lemma SamePdu(r: Regs, c: LlConn, s: Sent)
    ensures (exists p :: s == DataFrame(r, c, p)) ==> s == DataFrame(r, c, s.pdu)
  {
  }

  lemma AirFrames(ll: Ll, hdr: Hdr, pdu: seq<Byte>)
    requires Sized(ll)
    ensures forall s :: s in Step(ll, Medium(hdr, pdu)).pdus ==> OwnFrame(ll, s)
  {
    hide Le, ConnectPdu, ShowPdu, LeBytes, TypeBits, Body, RandEdiv;
  }
}
