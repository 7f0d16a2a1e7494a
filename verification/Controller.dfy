/** The controller of vbt_ll.c as it runs: registers and a connection table updated in
    place, two callbacks up to the host and out to the medium. Every entry point does to
    the state, and hands to the callbacks, exactly what LinkLayer's step says. */
module Controller {
  import opened Wire
  import opened Lcg
  import opened LinkLayer

  class BleController {
    var regs: Regs
    const conns: array<LlConn>
    /** What the two callbacks have been given so far, in order. */
    var up: seq<Evt>
    var out: seq<Sent>

    ghost predicate Valid() {
      conns.Length == MAX_CONN
    }

    ghost function Model(): (ll: Ll)
      reads this, conns
    {
      Ll(regs, conns[..])
    }

    /** The state and what was handed out since the old state are those of e. */
    twostate predicate Did(e: Eff)
      reads this, conns
    {
      Model() == e.ll && up == old(up) + e.evts && out == old(out) + e.pdus
    }

    constructor (bdaddr: seq<Byte>)
      requires |bdaddr| == 6
      ensures Valid() && fresh(conns)
      ensures Model() == New(bdaddr) && up == [] && out == []
    {
      var seed := 0x811c9dc5;
      for i := 0 to 6
        invariant seed == Seed(bdaddr, i)
      {
        seed := (seed * 33 + bdaddr[i]) % MODULUS;
      }
      regs := Regs(Le(bdaddr), ZERO_ADDR, false, Idle, false, 0, 0, 0, [], [], false, 0, 0, ZERO_ADDR, 0, seed);
      conns := new LlConn[MAX_CONN](_ => BLANK_CONN);
      up, out := [], [];
      new;
      assert conns[..] == seq(MAX_CONN, _ => BLANK_CONN);
    }

    // ---------------------------------------------------------------- the table

    method ConnByHandle(h: nat) returns (r: int)
      requires Valid()
      ensures r == FirstHandle(conns[..], h, 0)
    {
      var i := 0;
      while i < MAX_CONN
        invariant i <= MAX_CONN
        invariant FirstHandle(conns[..], h, 0) == FirstHandle(conns[..], h, i)
      {
        if conns[i].active && conns[i].handle == h { return i; }
        i := i + 1;
      }
      r := -1;
    }

    method ConnByAa(aa: nat) returns (r: int)
      requires Valid()
      ensures r == FirstAa(conns[..], aa, 0)
    {
      var i := 0;
      while i < MAX_CONN
        invariant i <= MAX_CONN
        invariant FirstAa(conns[..], aa, 0) == FirstAa(conns[..], aa, i)
      {
        if conns[i].active && conns[i].aa == aa { return i; }
        i := i + 1;
      }
      r := -1;
    }

    /** The first idle slot, cleared, taken and given the handle of its place. */
    method ConnAlloc() returns (r: int)
      requires Valid()
      modifies conns
      ensures r == FirstIdle(old(conns[..]), 0)
      ensures r < 0 ==> conns[..] == old(conns[..])
      ensures r >= 0 ==> conns[..] == old(conns[..])[r := BLANK_CONN.(active := true, handle := BASE_HANDLE + r)]
    {
      var i := 0;
      while i < MAX_CONN
        invariant i <= MAX_CONN
        invariant conns[..] == old(conns[..])
        invariant FirstIdle(conns[..], 0) == FirstIdle(conns[..], i)
      {
        if !conns[i].active {
          conns[i] := BLANK_CONN.(active := true, handle := BASE_HANDLE + i);
          return i;
        }
        i := i + 1;
      }
      r := -1;
    }

    method SetConn(i: nat, c: LlConn)
      requires Valid() && i < MAX_CONN
      modifies conns
      ensures Model() == Update(old(Model()), i, c)
    {
      conns[i] := c;
    }

    method Rand32() returns (x: nat)
      modifies this`regs
      ensures x == Next(old(regs.nextAa)) && regs == old(regs).(nextAa := x)
    {
      x := Next(regs.nextAa);
      regs := regs.(nextAa := x);
    }

    // -------------------------------------------------------------- the callbacks

    method SendUp(e: Evt)
      modifies this`up
      ensures up == old(up) + [e]
    {
      up := up + [e];
    }

    method SendOut(s: Sent)
      modifies this`out
      ensures out == old(out) + [s]
    {
      out := out + [s];
    }

    method SendData(i: nat, pdu: seq<Byte>)
      requires Valid() && i < MAX_CONN
      modifies this`out
      ensures out == old(out) + [DataFrame(regs, conns[i], pdu)]
    {
      var own := if conns[i].role == PERIPHERAL then regs.advOwnType else regs.initOwnType;
      SendOut(Sent(Hdr(conns[i].aa, 0, OwnAddr(regs, own), LL_DATA, DEFAULT_RSSI), pdu));
    }

    method SendControl(i: nat, op: nat, params: seq<Byte>)
      requires Valid() && i < MAX_CONN && op < 256 && |params| < 64
      modifies this`out
      ensures out == old(out) + [Control(regs, conns[i], op, params)]
    {
      SendData(i, DataPdu(LLID_CONTROL, [op] + params));
    }

    // ------------------------------------------------------- control PDUs received

    method HandleLlControl(i: nat, body: seq<Byte>)
      requires Valid() && i < MAX_CONN
      modifies this, conns
      ensures Did(HandleControl(old(Model()), i, body))
    {
      if |body| < 1 { return; }
      var c := conns[i];
      var op := body[0];
      if op == LL_TERMINATE_IND {
        SetConn(i, c.(active := false));
        SendUp(DisconnComplete(c.handle, if |body| >= 2 then body[1] else REMOTE_USER_TERM));
      } else if op == LL_VERSION_IND {
        SendControl(i, LL_VERSION_IND, [0x0c, 0x0f, 0, 0x0f, 0]);
      } else if op == LL_FEATURE_REQ || op == LL_SLAVE_FEATURE_REQ {
        SendControl(i, LL_FEATURE_RSP, [1, 0, 0, 0, 0, 0, 0, 0]);
      } else if op == LL_ENC_REQ || op == LL_START_ENC_REQ || op == LL_START_ENC_RSP {
        HandleEncryption(i, body);
      }
    }

    /** The three control PDUs of the encryption handshake. */
    method HandleEncryption(i: nat, body: seq<Byte>)
      requires Valid() && i < MAX_CONN && |body| >= 1
      requires body[0] == LL_ENC_REQ || body[0] == LL_START_ENC_REQ || body[0] == LL_START_ENC_RSP
      modifies this, conns
      ensures Did(HandleControl(old(Model()), i, body))
    {
      var c := conns[i];
      if body[0] == LL_ENC_REQ {
        SendControl(i, LL_ENC_RSP, [0, 0, 0, 0, 0, 0, 0, 0, 0, 0, 0, 0]);
        SetConn(i, c.(encrypting := true));
        var randEdiv := Zeros(10);
        if |body| >= 1 + 8 + 2 + 8 + 4 { randEdiv := body[1..9] + body[9..11]; }
        assert randEdiv == RandEdiv(body);
        SendUp(LtkRequest(c.handle, randEdiv));
      } else {
        if body[0] == LL_START_ENC_REQ {
          SendControl(i, LL_START_ENC_RSP, []);
        }
        if !c.encrypted {
          SetConn(i, c.(encrypted := true));
          SendUp(EncryptChange(c.handle));
        } else {
          assert conns[..] == old(conns[..])[i := c.(encrypted := true)];
        }
      }
    }

    // ---------------------------------------------------------------- HCI commands

    method HandleCreateConn(params: seq<Byte>)
      requires Valid()
      modifies this
      ensures Did(CreateConn(old(Model()), params))
    {
      if |params| < 13 {
        SendUp(CmdStatus(OP_CREATE_CONN, UNKNOWN_COMMAND));
        return;
      }
      regs := regs.(initPeer := Le(params[6..12]), initOwnType := params[12], mode := Initiating);
      SendUp(CmdStatus(OP_CREATE_CONN, SUCCESS));
    }

    method DoReset()
      requires Valid()
      modifies this`regs, conns
      ensures Model() == Reset(old(Model()))
    {
      var i := 0;
      while i < MAX_CONN
        invariant i <= MAX_CONN && regs == old(regs)
        invariant forall k :: 0 <= k < i ==> conns[k] == BLANK_CONN
      {
        conns[i] := BLANK_CONN;
        i := i + 1;
      }
      regs := regs.(mode := Idle, advEnabled := false, scanEnabled := false);
      assert conns[..] == Reset(old(Model())).conns;
    }

    /** LE Set Advertising Enable and LE Set Scan Enable. */
    method DoEnable(op: nat, params: seq<Byte>)
      requires op == OP_SET_ADV_ENABLE || op == OP_SET_SCAN_ENABLE
      modifies this`regs
      ensures regs == RegisterCommand(old(regs), op, params)
    {
      var on := |params| >= 1 && params[0] != 0;
      if op == OP_SET_ADV_ENABLE {
        regs := regs.(advEnabled := on);
        if on {
          regs := regs.(mode := Advertising, lastAdv := 0);
        } else if regs.mode == Advertising {
          regs := regs.(mode := Idle);
        }
      } else {
        regs := regs.(scanEnabled := on);
        if on {
          regs := regs.(mode := Scanning);
        } else if regs.mode == Scanning {
          regs := regs.(mode := Idle);
        }
      }
    }

    /** LE Set Advertising Data and LE Set Scan Response Data. */
    method DoSetData(op: nat, params: seq<Byte>)
      requires op == OP_SET_ADV_DATA || op == OP_SET_SCAN_RSP_DATA
      modifies this`regs
      ensures regs == RegisterCommand(old(regs), op, params)
    {
      if |params| >= 1 {
        var len: nat := params[0];
        if len > AD_MAX { len := AD_MAX; }
        var data: AdOctets := (params[1..] + Zeros(AD_MAX))[..len];
        regs := if op == OP_SET_ADV_DATA then regs.(advData := data) else regs.(rspData := data);
      }
    }

    /** The commands that touch nothing but registers. */
    method DoRegisterCommand(op: nat, params: seq<Byte>)
      requires IsRegisterCommand(op)
      modifies this`regs
      ensures regs == RegisterCommand(old(regs), op, params)
    {
      if op == OP_SET_RANDOM_ADDRESS {
        if |params| >= 6 { regs := regs.(randomAddr := Le(params[..6]), randomSet := true); }
      } else if op == OP_SET_ADV_PARAMETERS {
        if |params| >= 15 { regs := regs.(advType := params[4], advOwnType := params[5]); }
      } else if op == OP_SET_ADV_DATA || op == OP_SET_SCAN_RSP_DATA {
        DoSetData(op, params);
      } else if op == OP_SET_ADV_ENABLE || op == OP_SET_SCAN_ENABLE {
        DoEnable(op, params);
      } else if op == OP_SET_SCAN_PARAMETERS {
        if |params| >= 1 {
          regs := regs.(scanType := params[0]);
          if |params| >= 6 { regs := regs.(scanOwnType := params[5]); }
        }
      } else if op == OP_CREATE_CONN_CANCEL {
        if regs.mode == Initiating { regs := regs.(mode := Idle); }
      } else if op == OP_RAND {
        var a := Rand32();
        var b := Rand32();
      }
    }

    method DoStartEncryption(params: seq<Byte>)
      requires Valid()
      modifies this, conns
      ensures Did(StartEncryption(old(Model()), params))
    {
      SendUp(CmdStatus(OP_START_ENCRYPTION, SUCCESS));
      if |params| >= 2 {
        var i := ConnByHandle(U16(params, 0));
        if i >= 0 {
          var req := Zeros(10) + Zeros(12);
          if |params| >= 28 { req := params[2..12] + Zeros(12); }
          SendControl(i, LL_ENC_REQ, req);
          SetConn(i, conns[i].(encrypting := true));
        }
      }
    }

    method DoLtkReply(params: seq<Byte>)
      requires Valid()
      modifies this
      ensures Did(LtkReply(old(Model()), params))
    {
      var h := 0;
      if |params| >= 2 { h := U16(params, 0); }
      var i := ConnByHandle(h);
      SendUp(CmdComplete(OP_LTK_REPLY, SUCCESS));
      if i >= 0 { SendControl(i, LL_START_ENC_REQ, []); }
    }

    method DoDisconnect(params: seq<Byte>)
      requires Valid()
      modifies this, conns
      ensures Did(Disconnect(old(Model()), params))
    {
      SendUp(CmdStatus(OP_DISCONNECT, SUCCESS));
      if |params| >= 3 {
        var i := ConnByHandle(U16(params, 0));
        if i >= 0 {
          var c := conns[i];
          SendControl(i, LL_TERMINATE_IND, [params[2]]);
          SetConn(i, c.(active := false));
          SendUp(DisconnComplete(c.handle, TERM_LOCAL_HOST));
        }
      }
    }

    /** The three queries about a link that are answered at once. */
    method DoLinkQuery(op: nat, params: seq<Byte>)
      requires Valid()
      requires op == OP_CONN_UPDATE || op == OP_READ_REMOTE_FEATURES || op == OP_READ_REMOTE_VERSION
      modifies this`up
      ensures Did(LocalCommand(old(Model()), op, params))
    {
      SendUp(CmdStatus(op, SUCCESS));
      if |params| >= 2 {
        var h := U16(params, 0);
        if op == OP_READ_REMOTE_FEATURES {
          SendUp(RemoteFeatures(h));
        } else if op == OP_READ_REMOTE_VERSION {
          SendUp(RemoteVersion(h));
        } else {
          var i := ConnByHandle(h);
          if i >= 0 { SendUp(ConnUpdated(h)); }
        }
      }
    }

    method DoLocalCommand(op: nat, params: seq<Byte>)
      requires Valid()
      modifies this, conns
      ensures Did(LocalCommand(old(Model()), op, params))
    {
      if op == OP_RESET {
        DoReset();
        SendUp(CmdComplete(op, SUCCESS));
      } else if IsRegisterCommand(op) {
        DoRegisterCommand(op, params);
        SendUp(CmdComplete(op, SUCCESS));
      } else if op == OP_CREATE_CONN {
        HandleCreateConn(params);
      } else if op == OP_CONN_UPDATE || op == OP_READ_REMOTE_FEATURES || op == OP_READ_REMOTE_VERSION {
        DoLinkQuery(op, params);
      } else {
        SendUp(CmdComplete(op, UNKNOWN_COMMAND));
      }
    }

    method DispatchCommand(pkt: seq<Byte>)
      requires Valid()
      modifies this, conns
      ensures Did(Command(old(Model()), pkt))
    {
      if |pkt| < 4 { return; }
      var op := U16(pkt, 1);
      var plen: nat := pkt[3];
      if 4 + plen > |pkt| { plen := |pkt| - 4; }
      var params := pkt[4..4 + plen];
      if op == OP_START_ENCRYPTION {
        DoStartEncryption(params);
      } else if op == OP_LTK_REPLY {
        DoLtkReply(params);
      } else if op == OP_DISCONNECT {
        DoDisconnect(params);
      } else {
        DoLocalCommand(op, params);
      }
    }

    method HandleAclFromHost(pkt: seq<Byte>)
      requires Valid()
      modifies this
      ensures Did(AclFromHost(old(Model()), pkt))
    {
      if |pkt| < 5 { return; }
      var h := U16(pkt, 1) % 0x1000;
      var dlen := U16(pkt, 3);
      if 5 + dlen > |pkt| { dlen := |pkt| - 5; }
      var i := ConnByHandle(h);
      if i < 0 { return; }
      if dlen > ACL_MTU { dlen := ACL_MTU; }
      SendData(i, DataPdu(LLID_START, pkt[5..5 + dlen]));
      SendUp(NumCompleted(h));
    }

    method HciFromHost(pkt: seq<Byte>)
      requires Valid()
      modifies this, conns
      ensures Did(Step(old(Model()), Host(pkt)))
    {
      if |pkt| < 1 { return; }
      if pkt[0] == CMD_PKT {
        DispatchCommand(pkt);
      } else if pkt[0] == ACL_PKT {
        HandleAclFromHost(pkt);
      }
    }

    // ---------------------------------------------------------- PDUs from the medium

    method OnTarget(adva: Addr, txadd: nat)
      requires Valid()
      modifies this, conns
      ensures var ll := old(Model()); var i := FirstIdle(ll.conns, 0);
        Did(if i < 0 then Eff(ll, [], []) else Initiate(ll, i, adva, txadd))
    {
      var i := ConnAlloc();
      if i < 0 { return; }
      var x := Rand32();
      var c := conns[i].(aa := AccessAddr(x), role := CENTRAL, peerType := txadd, peerAddr := adva);
      SetConn(i, c);
      var inita := OwnAddr(regs, regs.initOwnType);
      SendOut(AdvFrame(inita, ConnectPdu(inita, regs.initOwnType % 2, adva, txadd, c.aa)));
      regs := regs.(mode := Idle, scanEnabled := false);
      SendUp(ConnComplete(c.handle, c.role, c.peerType, c.peerAddr));
    }

    method OnAdvertisement(hdr: Hdr, kind: nat, txadd: nat, adva: Addr, data: seq<Byte>)
      requires Valid() && kind < 16
      modifies this, conns
      ensures Did(HearAdvertisement(old(Model()), hdr, kind, txadd, adva, data))
    {
      if regs.mode == Initiating && Connectable(kind) && adva == regs.initPeer {
        OnTarget(adva, txadd);
        return;
      }
      if regs.scanEnabled {
        SendUp(AdvReport(ReportKind(kind), txadd, adva, data, hdr.rssi));
        if regs.scanType == 1 && (kind == ADV_IND || kind == ADV_SCAN_IND) {
          var sa := OwnAddr(regs, regs.scanOwnType);
          SendOut(AdvFrame(sa, [TypeBits(SCAN_REQ, regs.scanOwnType % 2, txadd), 12] + LeBytes(sa, 6) + LeBytes(adva, 6)));
        }
      }
    }

    method OnConnectInd(itype: nat, body: seq<Byte>)
      requires Valid()
      modifies this, conns
      ensures Did(HearConnect(old(Model()), itype, body))
    {
      if !regs.advEnabled || |body| < 34 { return; }
      if Le(body[6..12]) != OwnAddr(regs, regs.advOwnType) { return; }
      var i := ConnAlloc();
      if i < 0 { return; }
      var c := conns[i].(aa := Le(body[12..16]), role := PERIPHERAL, peerType := itype, peerAddr := Le(body[..6]));
      SetConn(i, c);
      regs := regs.(advEnabled := false, mode := Idle);
      SendUp(ConnComplete(c.handle, c.role, c.peerType, c.peerAddr));
    }

    method OnAdvPdu(hdr: Hdr, pdu: seq<Byte>)
      requires Valid() && |pdu| >= 2
      modifies this, conns
      ensures Did(HearAdvPdu(old(Model()), hdr, pdu))
    {
      var kind := pdu[0] % 16;
      var body := Body(pdu);
      if kind == ADV_IND || kind == ADV_DIRECT_IND || kind == ADV_NONCONN_IND || kind == ADV_SCAN_IND {
        if |body| >= 6 { OnAdvertisement(hdr, kind, TxAdd(pdu), Le(body[..6]), body[6..]); }
      } else if kind == SCAN_REQ {
        if regs.advEnabled && |body| >= 12 {
          var self := OwnAddr(regs, regs.advOwnType);
          if Le(body[6..12]) == self {
            SendOut(AdvFrame(self, ShowPdu(SCAN_RSP, regs.advOwnType % 2, self, regs.rspData)));
          }
        }
      } else if kind == SCAN_RSP {
        if regs.scanEnabled && |body| >= 6 {
          SendUp(AdvReport(4, TxAdd(pdu), Le(body[..6]), body[6..], hdr.rssi));
        }
      } else if kind == CONNECT_IND {
        OnConnectInd(TxAdd(pdu), body);
      }
    }

    method OnDataPdu(aa: nat, pdu: seq<Byte>)
      requires Valid() && |pdu| >= 2
      modifies this, conns
      ensures Did(HearDataPdu(old(Model()), aa, pdu))
    {
      var i := ConnByAa(aa);
      if i < 0 { return; }
      var llid := pdu[0] % 4;
      var body := Body(pdu);
      if llid == LLID_CONTROL {
        HandleLlControl(i, body);
      } else if llid == LLID_START || llid == LLID_CONT {
        if |body| > 0 { SendUp(AclUp(conns[i].handle, body)); }
      }
    }

    method PduFromMedium(hdr: Hdr, pdu: seq<Byte>)
      requires Valid()
      modifies this, conns
      ensures Did(Step(old(Model()), Medium(hdr, pdu)))
    {
      if |pdu| < 2 { return; }
      if hdr.llType == LL_ADV {
        OnAdvPdu(hdr, pdu);
      } else if hdr.llType == LL_DATA {
        OnDataPdu(hdr.aa, pdu);
      }
    }

    method TickAt(now: nat)
      requires Valid()
      modifies this
      ensures Did(Step(old(Model()), Clock(now)))
    {
      if regs.advEnabled {
        if regs.lastAdv == 0 || (now - regs.lastAdv) % CLOCK_RANGE >= ADV_INTERVAL_MS {
          var adva := OwnAddr(regs, regs.advOwnType);
          var kind := ADV_IND;
          if regs.advType == 2 || regs.advType == 3 {
            kind := ADV_NONCONN_IND;
          } else if regs.advType == 6 {
            kind := ADV_SCAN_IND;
          }
          var f := AdvFrame(adva, ShowPdu(kind, regs.advOwnType % 2, adva, regs.advData));
          SendOut(f);
          SendOut(f);
          SendOut(f);
          regs := regs.(lastAdv := now);
        }
      }
    }
  }
}
