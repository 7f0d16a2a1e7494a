/** A connection between two controllers, over every interleaving of what the two hosts
    ask for, what else the controllers are busy with, and the arrival of PDUs. */
module Duo {
  import opened Wire
  import opened LinkLayer
  import opened Hci
  import opened PeerLink

  /** One end of the link with its history: whether and how often it reported encryption,
      the payloads its host handed down and was handed, the ACL packets accepted for the
      link and the credits returned for them. */
  datatype End = End(ll: Ll, enc: bool, reports: nat, sent: seq<seq<Byte>>, got: seq<seq<Byte>>,
                     packets: nat, credits: nat)

  /** The two ends, the PDUs on their way to each, whether some host has supplied the link
      key on this link, and whether one has reset its controller under it. */
  datatype Pair = Pair(a: End, b: End, toA: seq<seq<Byte>>, toB: seq<seq<Byte>>, keyed: bool, reset: bool)

  function Swap(d: Pair): Pair {
    Pair(d.b, d.a, d.toB, d.toA, d.keyed, d.reset)
  }

  /** An end after a step, with its history brought up to date. */
  function Advance(aa: nat, d: End, x: Input): End
    requires Sized(d.ll)
  {
    var e := Step(d.ll, x);
    if !Up(d.ll, aa) then d.(ll := e.ll)
    else
      var h := BASE_HANDLE + Slot(d.ll, aa);
      End(e.ll, d.enc || Reports(e.evts, h) > 0, d.reports + Reports(e.evts, h),
          d.sent + Offered(d.ll, aa, x), d.got + Delivered(e.evts, h),
          d.packets + (if IsAcl(d.ll, aa, x) then 1 else 0), d.credits + Credits(e.evts, h))
  }

  /** What controller a can do next: something other than receive on this link (and without
      opening a second connection on its Access Address), or take the next PDU of the link. */
  datatype Move = Acts(x: Input) | Takes(hdr: Hdr)

  predicate MayMove(aa: nat, d: Pair, m: Move) {
    Sized(d.a.ll) &&
    match m
    case Acts(x) => !IsLinkPdu(aa, x) && NoTwin(d.a.ll, Step(d.a.ll, x).ll, aa)
    case Takes(hdr) => d.toA != [] && hdr.llType == LL_DATA && hdr.aa == aa
  }

  function Moved(aa: nat, d: Pair, m: Move): Pair
    requires MayMove(aa, d, m)
  {
    match m
    case Acts(x) =>
      Pair(Advance(aa, d.a, x), d.b, d.toA, d.toB + LinkPdus(aa, Step(d.a.ll, x).pdus),
           d.keyed || IsLtkReply(d.a.ll, aa, x), d.reset || (Up(d.a.ll, aa) && IsReset(x)))
    case Takes(hdr) =>
      var x := Medium(hdr, d.toA[0]);
      Pair(Advance(aa, d.a, x), d.b, d.toA[1..], d.toB + LinkPdus(aa, Step(d.a.ll, x).pdus), d.keyed, d.reset)
  }

  // -------------------------------------------------------------- the invariant

  predicate EndOk(aa: nat, d: End) {
    && HandlesAreSlots(d.ll) && Single(d.ll, aa)
    && (Up(d.ll, aa) ==> Encrypted(d.ll, aa) == d.enc)
    && d.reports == (if d.enc then 1 else 0)
    && d.credits == d.packets
  }

  /** The start-encryption handshake, seen from end a. */
  predicate Handshake(aa: nat, d: Pair) {
    && (d.a.enc || InFlight(d.toA, LL_START_ENC_REQ) || InFlight(d.toA, LL_START_ENC_RSP) ==> d.keyed)
    && (InFlight(d.toB, LL_START_ENC_RSP) ==> d.a.enc)
    && (d.a.enc && !d.b.enc && Up(d.b.ll, aa) ==> InFlight(d.toB, LL_START_ENC_RSP))
    && (d.keyed && Up(d.a.ll, aa) && Up(d.b.ll, aa) && !d.a.enc && !d.b.enc ==>
          InFlight(d.toA, LL_START_ENC_REQ) || InFlight(d.toB, LL_START_ENC_REQ))
  }

  /** The end of the connection, seen from end a: the far end hears of it, unless a reset
      made a forget the connection. */
  predicate Farewell(aa: nat, d: Pair) {
    && (InFlight(d.toB, LL_TERMINATE_IND) ==> !Up(d.a.ll, aa))
    && (!d.reset && !Up(d.a.ll, aa) && Up(d.b.ll, aa) ==> InFlight(d.toB, LL_TERMINATE_IND))
  }

  /** The payloads on their way to end a. */
  predicate Stream(aa: nat, d: Pair) {
    && d.a.got <= d.b.sent
    && (Up(d.a.ll, aa) ==> d.a.got + Payloads(d.toA) == d.b.sent)
  }

  predicate Inv(aa: nat, d: Pair) {
    && EndOk(aa, d.a) && EndOk(aa, d.b)
    && Handshake(aa, d) && Handshake(aa, Swap(d))
    && Farewell(aa, d) && Farewell(aa, Swap(d))
    && Stream(aa, d) && Stream(aa, Swap(d))
  }

  lemma ActsKeepsEnd(aa: nat, d: Pair, x: Input)
    requires Inv(aa, d) && MayMove(aa, d, Acts(x))
    ensures EndOk(aa, Moved(aa, d, Acts(x)).a)
    ensures Moved(aa, d, Acts(x)).a.enc == d.a.enc && Moved(aa, d, Acts(x)).a.got == d.a.got
    ensures Up(d.a.ll, aa) ==> Moved(aa, d, Acts(x)).a.sent == d.a.sent + Offered(d.a.ll, aa, x)
    ensures !Up(d.a.ll, aa) ==> Moved(aa, d, Acts(x)).a.sent == d.a.sent
  {
    hide Step, Requested;
    StepTold(d.a.ll, x);
    StepOffLink(d.a.ll, aa, x);
  }

  lemma ActsHandshake(aa: nat, d: Pair, x: Input)
    requires Inv(aa, d) && MayMove(aa, d, Acts(x))
    ensures var r := Moved(aa, d, Acts(x)); Handshake(aa, r) && Handshake(aa, Swap(r)) && Farewell(aa, r) && Farewell(aa, Swap(r))
  {
    hide Step, Requested, InFlight, IsReset, Commands, IsAcl;
    var out := Requested(d.a.ll, aa, x);
    ActsKeepsEnd(aa, d, x);
    StepOffLink(d.a.ll, aa, x);
    RequestedShape(d.a.ll, aa, x);
    InFlightConcat(d.toB, out, LL_START_ENC_REQ);
    InFlightConcat(d.toB, out, LL_START_ENC_RSP);
    InFlightConcat(d.toB, out, LL_TERMINATE_IND);
    if !Up(d.a.ll, aa) {
      assert !IsLtkReply(d.a.ll, aa, x) && !IsDisconnect(d.a.ll, aa, x) by { OnlyWhenUp(d.a.ll, aa, x); }
    }
  }

  lemma OnlyWhenUp(ll: Ll, aa: nat, x: Input)
    requires !Up(ll, aa)
    ensures !IsLtkReply(ll, aa, x) && !IsDisconnect(ll, aa, x) && Requested(ll, aa, x) == [] && Offered(ll, aa, x) == []
  {
  }

  lemma ActsStream(aa: nat, d: Pair, x: Input)
    requires Inv(aa, d) && MayMove(aa, d, Acts(x))
    ensures var r := Moved(aa, d, Acts(x)); Stream(aa, r) && Stream(aa, Swap(r))
  {
    hide Step, Requested, Offered, Payloads;
    var out := Requested(d.a.ll, aa, x);
    ActsKeepsEnd(aa, d, x);
    StepOffLink(d.a.ll, aa, x);
    RequestedShape(d.a.ll, aa, x);
    PayloadsConcat(d.toB, out);
    if !Up(d.a.ll, aa) {
      OnlyWhenUp(d.a.ll, aa, x);
    }
    assert d.b.got + Payloads(d.toB) + Payloads(out) == d.b.got + (Payloads(d.toB) + Payloads(out));
  }

  lemma ActsKeeps(aa: nat, d: Pair, x: Input)
    requires Inv(aa, d) && MayMove(aa, d, Acts(x))
    ensures Inv(aa, Moved(aa, d, Acts(x)))
  {
    hide Step, Handshake, Stream, Farewell;
    ActsKeepsEnd(aa, d, x);
    ActsHandshake(aa, d, x);
    ActsStream(aa, d, x);
  }

  lemma TakesKeepsEnd(aa: nat, d: Pair, hdr: Hdr)
    requires Inv(aa, d) && MayMove(aa, d, Takes(hdr))
    ensures var r := Moved(aa, d, Takes(hdr)); var op := OpOf(d.toA[0]);
      && EndOk(aa, r.a) && r.a.sent == d.a.sent
      && (Up(d.a.ll, aa) ==> r.a.enc == (d.a.enc || op == LL_START_ENC_REQ || op == LL_START_ENC_RSP))
      && (!Up(d.a.ll, aa) ==> r.a.enc == d.a.enc)
      && r.a.got == d.a.got + (if Up(d.a.ll, aa) then PayloadOf(d.toA[0]) else [])
      && (Up(r.a.ll, aa) <==> Up(d.a.ll, aa) && op != LL_TERMINATE_IND)
      && r.toB == d.toB + if Up(d.a.ll, aa) then Answer(d.toA[0]) else []
  {
    hide Step, Notices, Answer, Handshake, Farewell, Stream, OpOf, PayloadOf, Reports, Credits, Delivered, IsAcl, Offered;
    StepTold(d.a.ll, Medium(hdr, d.toA[0]));
    StepArrives(d.a.ll, aa, hdr, d.toA[0]);
    if Up(d.a.ll, aa) {
      NoticeShape(d.toA[0], BASE_HANDLE + Slot(d.a.ll, aa), Encrypted(d.a.ll, aa));
      NotHandedDown(d.a.ll, aa, Medium(hdr, d.toA[0]));
    }
  }

  lemma NotHandedDown(ll: Ll, aa: nat, x: Input)
    requires x.Medium?
    ensures !IsAcl(ll, aa, x) && Offered(ll, aa, x) == []
  {
  }

  lemma TakesHandshake(aa: nat, d: Pair, hdr: Hdr)
    requires Inv(aa, d) && MayMove(aa, d, Takes(hdr))
    ensures var r := Moved(aa, d, Takes(hdr)); Handshake(aa, r) && Handshake(aa, Swap(r)) && Farewell(aa, r) && Farewell(aa, Swap(r))
  {
    hide Step, InFlight, Answer, Notices, Advance;
    var out := if Up(d.a.ll, aa) then Answer(d.toA[0]) else [];
    TakesKeepsEnd(aa, d, hdr);
    AnswerShape(d.toA[0]);
    NothingInFlight();
    InFlightTail(d.toA, LL_START_ENC_REQ);
    InFlightTail(d.toA, LL_START_ENC_RSP);
    InFlightTail(d.toA, LL_TERMINATE_IND);
    InFlightConcat(d.toB, out, LL_START_ENC_REQ);
    InFlightConcat(d.toB, out, LL_START_ENC_RSP);
    InFlightConcat(d.toB, out, LL_TERMINATE_IND);
  }

  lemma NothingInFlight()
    ensures forall op: int :: !InFlight([], op)
  {
  }

  lemma TakesStream(aa: nat, d: Pair, hdr: Hdr)
    requires Inv(aa, d) && MayMove(aa, d, Takes(hdr))
    ensures var r := Moved(aa, d, Takes(hdr)); Stream(aa, r) && Stream(aa, Swap(r))
  {
    hide Step, Answer, Notices, Advance, PayloadOf;
    var out := if Up(d.a.ll, aa) then Answer(d.toA[0]) else [];
    TakesKeepsEnd(aa, d, hdr);
    AnswerShape(d.toA[0]);
    PayloadsConcat(d.toB, out);
    if Up(d.a.ll, aa) {
      Shift(d.a.got, PayloadOf(d.toA[0]), Payloads(d.toA[1..]), d.b.sent);
    }
    assert Payloads(d.toB) + [] == Payloads(d.toB);
  }

  lemma Shift(got: seq<seq<Byte>>, first: seq<seq<Byte>>, rest: seq<seq<Byte>>, sent: seq<seq<Byte>>)
    requires got + (first + rest) == sent
    ensures got + first <= sent && got + first + rest == sent
  {
    assert got + first + rest == got + (first + rest);
  }

  lemma TakesKeeps(aa: nat, d: Pair, hdr: Hdr)
    requires Inv(aa, d) && MayMove(aa, d, Takes(hdr))
    ensures Inv(aa, Moved(aa, d, Takes(hdr)))
  {
    hide Step;
    TakesKeepsEnd(aa, d, hdr);
    TakesHandshake(aa, d, hdr);
    TakesStream(aa, d, hdr);
  }

  // ------------------------------------------------------------------------ runs

  /** A new connection: both ends have it, unencrypted, and nothing has happened on it. */
  predicate Begins(aa: nat, d: Pair) {
    && EndOk(aa, d.a) && EndOk(aa, d.b) && Up(d.a.ll, aa) && Up(d.b.ll, aa)
    && !d.a.enc && !d.b.enc && !d.keyed && !d.reset && d.toA == [] && d.toB == []
    && d.a.sent == [] && d.a.got == [] && d.b.sent == [] && d.b.got == []
  }

  ghost predicate Next(aa: nat, d: Pair, r: Pair) {
    exists m :: (MayMove(aa, d, m) && r == Moved(aa, d, m)) || (MayMove(aa, Swap(d), m) && Swap(r) == Moved(aa, Swap(d), m))
  }

  ghost predicate IsRun(aa: nat, ds: seq<Pair>) {
    ds != [] && Begins(aa, ds[0]) && forall i :: 0 < i < |ds| ==> Next(aa, ds[i - 1], ds[i])
  }

  lemma MoveKeeps(aa: nat, d: Pair, m: Move)
    requires Inv(aa, d) && MayMove(aa, d, m)
    ensures Inv(aa, Moved(aa, d, m))
  {
    match m
    case Acts(x) => ActsKeeps(aa, d, x);
    case Takes(hdr) => TakesKeeps(aa, d, hdr);
  }

  lemma NextKeeps(aa: nat, d: Pair, r: Pair)
    requires Inv(aa, d) && Next(aa, d, r)
    ensures Inv(aa, r)
  {
    var m :| (MayMove(aa, d, m) && r == Moved(aa, d, m)) || (MayMove(aa, Swap(d), m) && Swap(r) == Moved(aa, Swap(d), m));
    if MayMove(aa, d, m) && r == Moved(aa, d, m) {
      MoveKeeps(aa, d, m);
    } else {
      MoveKeeps(aa, Swap(d), m);
      assert Swap(Swap(r)) == r;
    }
  }

  lemma {:induction false} RunInv(aa: nat, ds: seq<Pair>, i: nat)
    requires IsRun(aa, ds) && i < |ds|
    ensures Inv(aa, ds[i])
  {
    if i > 0 {
      RunInv(aa, ds, i - 1);
      NextKeeps(aa, ds[i - 1], ds[i]);
    }
  }

  /** Encryption, over every interleaving. Neither end is ever encrypted unless some host has
      answered a key request on this link. If one end is encrypted and the other, still up,
      is not, the confirmation is on its way to the other; and whenever the link is quiet both
      ends are encrypted if some host has answered a key request, and neither if none has. And
      each end's host is told exactly once, when its flag flips. */
  lemma EncryptionAgrees(aa: nat, ds: seq<Pair>, i: nat)
    requires IsRun(aa, ds) && i < |ds|
    ensures var d := ds[i];
      && (Encrypted(d.a.ll, aa) || Encrypted(d.b.ll, aa) ==> d.keyed)
      && (Encrypted(d.a.ll, aa) && Up(d.b.ll, aa) && !Encrypted(d.b.ll, aa) ==> InFlight(d.toB, LL_START_ENC_RSP))
      && (Up(d.a.ll, aa) && Up(d.b.ll, aa) && d.toA == [] && d.toB == [] ==>
            (Encrypted(d.a.ll, aa) <==> d.keyed) && (Encrypted(d.b.ll, aa) <==> d.keyed))
      && (Up(d.a.ll, aa) ==> d.a.reports == if Encrypted(d.a.ll, aa) then 1 else 0)
      && (Up(d.b.ll, aa) ==> d.b.reports == if Encrypted(d.b.ll, aa) then 1 else 0)
  {
    RunInv(aa, ds, i);
  }

  /** Data, over every interleaving. What a host has been handed is always the beginning of
      what the other handed down, payload for payload and octet for octet; while the
      receiving end is up, exactly the rest is on its way. Every packet accepted for the
      link has given its host one credit back. */
  lemma PayloadsInOrder(aa: nat, ds: seq<Pair>, i: nat)
    requires IsRun(aa, ds) && i < |ds|
    ensures var d := ds[i];
      && d.a.got <= d.b.sent && d.b.got <= d.a.sent
      && (Up(d.a.ll, aa) ==> d.a.got + Payloads(d.toA) == d.b.sent)
      && (Up(d.b.ll, aa) ==> d.b.got + Payloads(d.toB) == d.a.sent)
      && d.a.credits == d.a.packets && d.b.credits == d.b.packets
  {
    RunInv(aa, ds, i);
  }

  /** The end of a connection, over every interleaving: if no controller was reset under it,
      an end that is still up while the other is down has the farewell on its way; so whenever
      the link is quiet, both ends are up or neither is. */
  lemma EndsAgree(aa: nat, ds: seq<Pair>, i: nat)
    requires IsRun(aa, ds) && i < |ds| && !ds[i].reset
    ensures var d := ds[i];
      && (!Up(d.a.ll, aa) && Up(d.b.ll, aa) ==> InFlight(d.toB, LL_TERMINATE_IND))
      && (!Up(d.b.ll, aa) && Up(d.a.ll, aa) ==> InFlight(d.toA, LL_TERMINATE_IND))
      && (d.toA == [] && d.toB == [] ==> (Up(d.a.ll, aa) <==> Up(d.b.ll, aa)))
  {
    RunInv(aa, ds, i);
  }

  /** And if one was: on a quiet link with both ends up, a reset of one controller takes its
      end down and leaves the other up, with nothing under way to tell it. */
  lemma ResetForgets(aa: nat, d: Pair, x: Input)
    requires Inv(aa, d) && MayMove(aa, d, Acts(x)) && IsReset(x)
    requires Up(d.a.ll, aa) && Up(d.b.ll, aa) && d.toA == [] && d.toB == []
    ensures var r := Moved(aa, d, Acts(x));
      r.reset && !Up(r.a.ll, aa) && Up(r.b.ll, aa) && r.toA == [] && r.toB == []
  {
    hide Step;
    StepOffLink(d.a.ll, aa, x);
    assert Requested(d.a.ll, aa, x) == [];
  }

  /** One host ends the connection with a reason: its end goes down and it is told so, one PDU
      goes out, and when that arrives the other end goes down and its host is told the reason. */
  lemma ReasonCarried(a: Ll, b: Ll, aa: nat, x: Input, hdr: Hdr)
    requires HandlesAreSlots(a) && HandlesAreSlots(b) && Single(a, aa) && Single(b, aa) && Up(b, aa)
    requires IsDisconnect(a, aa, x) && NoTwin(a, Step(a, x).ll, aa) && hdr.llType == LL_DATA && hdr.aa == aa
    ensures var e := Step(a, x);
      && !Up(e.ll, aa) && e.evts == [CmdStatus(0x0406, 0), DisconnComplete(0x40 + Slot(a, aa), 0x16)]
      && |LinkPdus(aa, e.pdus)| == 1
      && var f := Step(b, Medium(hdr, LinkPdus(aa, e.pdus)[0]));
      && !Up(f.ll, aa) && f.evts == [DisconnComplete(0x40 + Slot(b, aa), x.pkt[6])]
  {
    hide Step;
    StepOffLink(a, aa, x);
    var pdu: seq<Byte> := [3, 2, 0x02, x.pkt[6]];
    assert Requested(a, aa, x) == [pdu];
    StepArrives(b, aa, hdr, pdu);
    assert OpOf(pdu) == 2 && Content(pdu) == [2, x.pkt[6]];
  }

  /** What is handed down: the packet's data, whole exactly when it has at most 251 octets,
      and nothing at all when it has none. */
  lemma OfferedWhole(ll: Ll, aa: nat, x: Input)
    requires IsAcl(ll, aa, x) && U16(x.pkt, 3) == |x.pkt| - 5
    ensures Offered(ll, aa, x) == [x.pkt[5..]] <==> 1 <= |x.pkt| - 5 <= 251
  {
    if |x.pkt| - 5 > 251 {
      assert |Offered(ll, aa, x)[0]| == 251;
    }
  }
}
