/** What the host can rely on: the event stream alone tells it the controller's live
    connections, and every command is answered once. */
module Hci {
  import opened Wire
  import opened Lcg
  import opened LinkLayer

  /** Handles name slots. */
  predicate HandlesAreSlots(ll: Ll) {
    Sized(ll) && forall i :: 0 <= i < |ll.conns| && ll.conns[i].active ==> ll.conns[i].handle == BASE_HANDLE + i
  }

  /** What the host is told about a connection: role, peer address type, peer address. */
  type Known = map<nat, (nat, nat, Addr)>

  /** The live connections by handle. */
  ghost function Live(conns: seq<LlConn>): Known {
    if conns == [] then map[]
    else
      var c := conns[|conns| - 1];
      var rest := Live(conns[..|conns| - 1]);
      if c.active then rest[c.handle := (c.role, c.peerType, c.peerAddr)] else rest
  }

  /** A host's bookkeeping: connections come and go with their events, a reset ends all. */
  ghost function Note(m: Known, e: Evt): Known {
    match e
    case ConnComplete(h, role, t, a) => m[h := (role, t, a)]
    case DisconnComplete(h, _) => m - {h}
    case CmdComplete(op, _) => if op == OP_RESET then map[] else m
    case _ => m
  }

  ghost function Notes(m: Known, evts: seq<Evt>): Known {
    if evts == [] then m else Note(Notes(m, evts[..|evts| - 1]), evts[|evts| - 1])
  }

  lemma {:induction false} NotesConcat(m: Known, x: seq<Evt>, y: seq<Evt>)
    ensures Notes(m, x + y) == Notes(Notes(m, x), y)
  {
    if y == [] {
      assert x + y == x;
    } else {
      assert (x + y)[..|x + y| - 1] == x + y[..|y| - 1];
      NotesConcat(m, x, y[..|y| - 1]);
    }
  }

  lemma NotesOne(m: Known, e: Evt)
    ensures Notes(m, [e]) == Note(m, e)
  {
    assert [e][..0] == [];
  }

  lemma NotesTwo(m: Known, e: Evt, f: Evt)
    ensures Notes(m, [e, f]) == Note(Note(m, e), f)
  {
    assert [e, f][..1] == [e];
    NotesOne(m, e);
  }

  // ---------------------------------------------------------- the table as a map

  /** Slots from `base` on carry handles from BASE_HANDLE + base on. */
  predicate Numbered(conns: seq<LlConn>) {
    forall i :: 0 <= i < |conns| && conns[i].active ==> conns[i].handle == BASE_HANDLE + i
  }

  lemma {:induction false} LiveKeys(conns: seq<LlConn>, h: nat)
    requires Numbered(conns) && h in Live(conns)
    ensures BASE_HANDLE <= h < BASE_HANDLE + |conns|
  {
    var k := |conns| - 1;
    if h in Live(conns[..k]) {
      LiveKeys(conns[..k], h);
    }
  }

  lemma {:induction false} LiveUpdate(conns: seq<LlConn>, i: nat, c: LlConn)
    requires Numbered(conns) && i < |conns| && (c.active ==> c.handle == BASE_HANDLE + i)
    ensures Live(conns[i := c]) ==
      if c.active then Live(conns)[BASE_HANDLE + i := (c.role, c.peerType, c.peerAddr)]
      else Live(conns) - {BASE_HANDLE + i}
  {
    var k := |conns| - 1;
    if i < k {
      LiveUpdate(conns[..k], i, c);
      assert conns[i := c][..k] == conns[..k][i := c];
    } else {
      assert conns[i := c][..k] == conns[..k];
      if BASE_HANDLE + i in Live(conns[..k]) {
        LiveKeys(conns[..k], BASE_HANDLE + i);
        assert false;
      }
      assert Live(conns[..k]) - {BASE_HANDLE + i} == Live(conns[..k]);
    }
  }

  lemma {:induction false} LiveAt(conns: seq<LlConn>, i: nat)
    requires Numbered(conns) && i < |conns| && conns[i].active
    ensures BASE_HANDLE + i in Live(conns)
    ensures Live(conns)[BASE_HANDLE + i] == (conns[i].role, conns[i].peerType, conns[i].peerAddr)
  {
    var k := |conns| - 1;
    if i < k {
      LiveAt(conns[..k], i);
    }
  }

  lemma {:induction false} LiveBlank(conns: seq<LlConn>)
    requires forall i :: 0 <= i < |conns| ==> !conns[i].active
    ensures Live(conns) == map[]
  {
    if conns != [] {
      LiveBlank(conns[..|conns| - 1]);
    }
  }

  /** Only the encryption flags of an active entry change. */
  lemma LiveFlags(conns: seq<LlConn>, i: nat, c: LlConn)
    requires Numbered(conns) && i < |conns| && conns[i].active
    requires c == conns[i].(encrypting := c.encrypting, encrypted := c.encrypted)
    ensures Live(conns[i := c]) == Live(conns)
  {
    LiveUpdate(conns, i, c);
    LiveAt(conns, i);
  }

  // -------------------------------------------------------- each step is told

  /** The step keeps handles and slots in line, and its events say what it did. */
  ghost predicate Told(ll: Ll, e: Eff) {
    HandlesAreSlots(e.ll) && Live(e.ll.conns) == Notes(Live(ll.conns), e.evts)
  }

  lemma TellsNothing(ll: Ll, e: Eff)
    requires HandlesAreSlots(ll) && e.ll.conns == ll.conns
    requires forall x :: x in e.evts ==> !x.ConnComplete? && !x.DisconnComplete? && !(x.CmdComplete? && x.opcode == OP_RESET)
    ensures Told(ll, e)
  {
    Silent(Live(ll.conns), e.evts);
  }

  lemma {:induction false} Silent(m: Known, evts: seq<Evt>)
    requires forall x :: x in evts ==> !x.ConnComplete? && !x.DisconnComplete? && !(x.CmdComplete? && x.opcode == OP_RESET)
    ensures Notes(m, evts) == m
  {
    if evts != [] {
      assert evts[|evts| - 1] in evts;
      Silent(m, evts[..|evts| - 1]);
    }
  }

  lemma ControlTold(ll: Ll, i: nat, body: seq<Byte>)
    requires HandlesAreSlots(ll) && i < MAX_CONN && ll.conns[i].active
    ensures Told(ll, HandleControl(ll, i, body))
  {
    var e := HandleControl(ll, i, body);
    var c := ll.conns[i];
    if |body| >= 1 && body[0] == LL_TERMINATE_IND {
      LiveUpdate(ll.conns, i, c.(active := false));
      NotesOne(Live(ll.conns), e.evts[0]);
    } else {
      if e.ll.conns != ll.conns {
        LiveFlags(ll.conns, i, e.ll.conns[i]);
      }
      Silent(Live(ll.conns), e.evts);
    }
  }

  lemma DisconnectTold(ll: Ll, params: seq<Byte>)
    requires HandlesAreSlots(ll)
    ensures Told(ll, Disconnect(ll, params))
  {
    var i := if |params| >= 3 then NamedConn(ll, params) else -1;
    var e := Disconnect(ll, params);
    if i >= 0 {
      LiveUpdate(ll.conns, i, ll.conns[i].(active := false));
      NotesTwo(Live(ll.conns), e.evts[0], e.evts[1]);
    } else {
      TellsNothing(ll, e);
    }
  }

  lemma StartEncryptionTold(ll: Ll, params: seq<Byte>)
    requires HandlesAreSlots(ll)
    ensures Told(ll, StartEncryption(ll, params))
  {
    var i := NamedConn(ll, params);
    var e := StartEncryption(ll, params);
    if i >= 0 {
      LiveFlags(ll.conns, i, e.ll.conns[i]);
    }
    Silent(Live(ll.conns), e.evts);
  }

  lemma ResetTold(ll: Ll)
    requires HandlesAreSlots(ll)
    ensures Told(ll, Complete(Reset(ll), OP_RESET))
  {
    LiveBlank(Reset(ll).conns);
    NotesOne(Live(ll.conns), CmdComplete(OP_RESET, SUCCESS));
  }

  lemma LocalCommandTold(ll: Ll, op: nat, params: seq<Byte>)
    requires HandlesAreSlots(ll)
    ensures Told(ll, LocalCommand(ll, op, params))
  {
    if op == OP_RESET {
      ResetTold(ll);
    } else {
      TellsNothing(ll, LocalCommand(ll, op, params));
    }
  }

  lemma CommandTold(ll: Ll, pkt: seq<Byte>)
    requires HandlesAreSlots(ll)
    ensures Told(ll, Command(ll, pkt))
  {
    if |pkt| >= 4 {
      var op := U16(pkt, 1);
      var params := Params(pkt);
      if op == OP_START_ENCRYPTION {
        StartEncryptionTold(ll, params);
      } else if op == OP_DISCONNECT {
        DisconnectTold(ll, params);
      } else if op == OP_LTK_REPLY {
        TellsNothing(ll, LtkReply(ll, params));
      } else {
        LocalCommandTold(ll, op, params);
      }
    }
  }

  lemma OpenedTold(ll: Ll, i: nat, c: LlConn, e: Eff)
    requires HandlesAreSlots(ll) && i < MAX_CONN && c.active && c.handle == BASE_HANDLE + i
    requires e.ll.conns == ll.conns[i := c] && e.evts == [ConnComplete(c.handle, c.role, c.peerType, c.peerAddr)]
    ensures Told(ll, e)
  {
    LiveUpdate(ll.conns, i, c);
    NotesOne(Live(ll.conns), e.evts[0]);
  }

  lemma AdvPduTold(ll: Ll, hdr: Hdr, pdu: seq<Byte>)
    requires HandlesAreSlots(ll) && |pdu| >= 2
    ensures Told(ll, HearAdvPdu(ll, hdr, pdu))
  {
    var e := HearAdvPdu(ll, hdr, pdu);
    var i := FirstIdle(ll.conns, 0);
    if e.ll.conns != ll.conns || (e.evts != [] && e.evts[0].ConnComplete?) {
      OpenedTold(ll, i, e.ll.conns[i], e);
    } else {
      TellsNothing(ll, e);
    }
  }

  lemma DataPduTold(ll: Ll, aa: nat, pdu: seq<Byte>)
    requires HandlesAreSlots(ll) && |pdu| >= 2
    ensures Told(ll, HearDataPdu(ll, aa, pdu))
  {
    var i := FirstAa(ll.conns, aa, 0);
    if i >= 0 && pdu[0] % 4 == LLID_CONTROL {
      ControlTold(ll, i, Body(pdu));
    } else {
      TellsNothing(ll, HearDataPdu(ll, aa, pdu));
    }
  }

  /** Every step's events tell exactly what it did to the connection table. */
  lemma StepTold(ll: Ll, x: Input)
    requires HandlesAreSlots(ll)
    ensures Told(ll, Step(ll, x))
  {
    match x
    case Host(pkt) =>
      if |pkt| >= 1 && pkt[0] == CMD_PKT {
        CommandTold(ll, pkt);
      } else {
        TellsNothing(ll, FromHost(ll, pkt));
      }
    case Medium(hdr, pdu) =>
      if |pdu| >= 2 && hdr.llType == LL_ADV {
        AdvPduTold(ll, hdr, pdu);
      } else if |pdu| >= 2 && hdr.llType == LL_DATA {
        DataPduTold(ll, hdr.aa, pdu);
      } else {
        TellsNothing(ll, FromMedium(ll, hdr, pdu));
      }
    case Clock(now) => TellsNothing(ll, Tick(ll, now));
  }

  // ------------------------------------------------------------------------ runs

  /** A fresh controller after a sequence of inputs, with all events so far. */
  ghost function After(bdaddr: seq<Byte>, xs: seq<Input>): (r: (Ll, seq<Evt>))
    requires |bdaddr| == 6
    ensures Sized(r.0)
  {
    if xs == [] then (New(bdaddr), [])
    else
      var before := After(bdaddr, xs[..|xs| - 1]);
      var e := Step(before.0, xs[|xs| - 1]);
      (e.ll, before.1 + e.evts)
  }

  /** Over every run: replaying the event stream from nothing gives exactly the live
      connections, with their roles and peers, and handles are always 0x40 plus the slot. */
  lemma {:induction false} EventsTellTheTable(bdaddr: seq<Byte>, xs: seq<Input>)
    requires |bdaddr| == 6
    ensures var r := After(bdaddr, xs); HandlesAreSlots(r.0) && Notes(map[], r.1) == Live(r.0.conns)
  {
    if xs == [] {
      LiveBlank(New(bdaddr).conns);
    } else {
      var front := xs[..|xs| - 1];
      EventsTellTheTable(bdaddr, front);
      var before := After(bdaddr, front);
      StepTold(before.0, xs[|xs| - 1]);
      NotesConcat(map[], before.1, Step(before.0, xs[|xs| - 1]).evts);
    }
  }

  // --------------------------------------------------------- what a step opens

  /** The slot in which a step opens a connection, as it tells the host; -1 for any other. */
  function OpenedSlot(ll: Ll, x: Input): int
    requires Sized(ll)
  {
    var evts := Step(ll, x).evts;
    if evts != [] && evts[0].ConnComplete? then evts[0].handle - BASE_HANDLE else -1
  }

  /** The same connection, encryption apart. */
  predicate SameLink(c: LlConn, d: LlConn) {
    c.active && d.active && c.aa == d.aa && c.role == d.role && c.peerAddr == d.peerAddr && c.peerType == d.peerType
  }

  /** A step opens the connection it announces, and no other. */
  ghost predicate OpensOnly(ll: Ll, x: Input)
    requires Sized(ll)
  {
    var e := Step(ll, x); var o := OpenedSlot(ll, x);
    && -1 <= o < MAX_CONN
    && (o >= 0 ==>
          var c := e.ll.conns[o];
          && c.active && (c.role == CENTRAL || c.role == PERIPHERAL)
          && e.evts[0] == ConnComplete(BASE_HANDLE + o, c.role, c.peerType, c.peerAddr))
    && forall s: nat :: s < MAX_CONN && s != o && e.ll.conns[s].active ==> SameLink(ll.conns[s], e.ll.conns[s])
  }

  lemma CommandOpens(ll: Ll, x: Input)
    requires Sized(ll) && x.Host? && |x.pkt| >= 4 && x.pkt[0] == CMD_PKT
    ensures OpensOnly(ll, x)
  {
    hide Control, RegisterCommand;
    var op, params := U16(x.pkt, 1), Params(x.pkt);
    if op == OP_START_ENCRYPTION || op == OP_LTK_REPLY || op == OP_DISCONNECT {
    } else {
      assert Step(ll, x) == LocalCommand(ll, op, params);
    }
  }

  lemma AirOpens(ll: Ll, x: Input)
    requires Sized(ll) && x.Medium? && x.hdr.llType == LL_ADV
    ensures OpensOnly(ll, x)
  {
    hide AccessAddr, Next, ConnectPdu, ShowPdu, TypeBits, Le, LeBytes;
  }

  lemma LinkOpens(ll: Ll, x: Input)
    requires Sized(ll) && x.Medium? && x.hdr.llType != LL_ADV
    ensures OpensOnly(ll, x)
  {
    hide Control, RandEdiv;
  }

  lemma StepOpens(ll: Ll, x: Input)
    requires Sized(ll)
    ensures OpensOnly(ll, x)
  {
    match x
    case Host(pkt) => if |pkt| >= 4 && pkt[0] == CMD_PKT { CommandOpens(ll, x); }
    case Medium(hdr, pdu) => if hdr.llType == LL_ADV { AirOpens(ll, x); } else { LinkOpens(ll, x); }
    case Clock(now) =>
  }

  // -------------------------------------------------------------------- replies

  predicate IsReply(e: Evt) {
    e.CmdComplete? || e.CmdStatus?
  }

  /** The first event answers the command, and no other event answers anything. */
  predicate Answers(evts: seq<Evt>, op: nat) {
    && evts != [] && IsReply(evts[0]) && evts[0].opcode == op
    && forall k :: 0 < k < |evts| ==> !IsReply(evts[k])
  }

  lemma PerformAnswers(ll: Ll, op: nat, params: seq<Byte>)
    requires Sized(ll)
    ensures Answers(Perform(ll, op, params).evts, op)
  {
    if op == OP_START_ENCRYPTION || op == OP_LTK_REPLY || op == OP_DISCONNECT {
    } else {
      assert Perform(ll, op, params) == LocalCommand(ll, op, params);
    }
  }

  predicate NoReply(evts: seq<Evt>) {
    forall k :: 0 <= k < |evts| ==> !IsReply(evts[k])
  }

  lemma MediumAnswersNothing(ll: Ll, hdr: Hdr, pdu: seq<Byte>)
    requires Sized(ll)
    ensures NoReply(FromMedium(ll, hdr, pdu).evts)
  {
  }

  /** Every command packet with a whole header is answered by exactly one Command Complete
      or Command Status, it comes first and names the command; nothing else is answered. */
  lemma OneReply(ll: Ll, x: Input)
    requires Sized(ll)
    ensures if x.Host? && |x.pkt| >= 4 && x.pkt[0] == CMD_PKT
            then Answers(Step(ll, x).evts, U16(x.pkt, 1))
            else NoReply(Step(ll, x).evts)
  {
    match x
    case Host(pkt) => if |pkt| >= 4 { PerformAnswers(ll, U16(pkt, 1), Params(pkt)); }
    case Medium(hdr, pdu) => MediumAnswersNothing(ll, hdr, pdu);
    case Clock(now) =>
  }
}
