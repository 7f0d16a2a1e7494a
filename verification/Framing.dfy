/** Length-prefixed messages on a byte stream: the framing as a prefix code. */
module Framing {
  import opened Wire

  const HDR_SIZE: nat := 44
  const MAX_PDU_SIZE: nat := 512
  const MAX_MSG_SIZE: nat := HDR_SIZE + MAX_PDU_SIZE
  const RXBUF_SIZE: nat := 4 + MAX_MSG_SIZE
  const SEND_BUF_SIZE: nat := 256 * 1024

  /** Four octets, most significant first. */
  function Be32(n: nat): (r: seq<Byte>)
    requires n < 0x1_0000_0000
    ensures |r| == 4
  {
    [n / 256 / 256 / 256, n / 256 / 256 % 256, n / 256 % 256, n % 256]
  }

  function FromBe32(b: seq<Byte>): nat
    requires |b| >= 4
  {
    ((b[0] as int * 256 + b[1] as int) * 256 + b[2] as int) * 256 + b[3] as int
  }

  lemma Be32RoundTrip(n: nat)
    requires n < 0x1_0000_0000
    ensures FromBe32(Be32(n)) == n
    ensures var b := Be32(n);
      0x100_0000 * (b[0] as int) + 0x1_0000 * (b[1] as int) + 0x100 * (b[2] as int) + b[3] as int == n
  {
  }

  /** A message: a medium header and a PDU, or a hello. */
  type Message = seq<Byte>

  predicate Fits(m: Message) {
    |m| <= MAX_MSG_SIZE
  }

  predicate AllFit(ms: seq<Message>) {
    forall i :: 0 <= i < |ms| ==> Fits(ms[i])
  }

  /** A message as it goes on the wire. */
  function Frame(m: Message): (r: seq<Byte>)
    requires Fits(m)
    ensures |r| == 4 + |m|
  {
    Be32(|m|) + m
  }

  /** Messages back to back. */
  function Flat(ms: seq<Message>): seq<Byte>
    requires AllFit(ms)
  {
    if ms == [] then [] else Flat(ms[..|ms| - 1]) + Frame(ms[|ms| - 1])
  }

  lemma {:induction false} FlatConcat(xs: seq<Message>, ys: seq<Message>)
    requires AllFit(xs) && AllFit(ys)
    ensures Flat(xs + ys) == Flat(xs) + Flat(ys)
  {
    hide Frame;
    if ys == [] {
      assert xs + ys == xs;
    } else {
      assert (xs + ys)[..|xs + ys| - 1] == xs + ys[..|ys| - 1];
      FlatConcat(xs, ys[..|ys| - 1]);
      Assoc(Flat(xs), Flat(ys[..|ys| - 1]), Frame(ys[|ys| - 1]));
    }
  }

  lemma FlatOne(m: Message)
    requires Fits(m)
    ensures Flat([m]) == Frame(m)
  {
    var none: seq<Message> := [m][..0];
    assert Flat(none) + Frame(m) == Frame(m);
  }

  lemma FlatCons(ms: seq<Message>)
    requires ms != [] && AllFit(ms)
    ensures Flat(ms) == Frame(ms[0]) + Flat(ms[1..])
  {
    FlatConcat([ms[0]], ms[1..]);
    assert ms == [ms[0]] + ms[1..];
    FlatOne(ms[0]);
  }

  /** Bytes that do not yet hold a whole message. */
  predicate Partial(rest: seq<Byte>) {
    |rest| < 4 || (FromBe32(rest) <= MAX_MSG_SIZE && |rest| < 4 + FromBe32(rest))
  }

  /** Bytes that announce a message longer than any may be. */
  predicate Oversized(rest: seq<Byte>) {
    |rest| >= 4 && FromBe32(rest) > MAX_MSG_SIZE
  }

  /** A partial message always leaves room in the receive buffer. */
  lemma PartialFits(rest: seq<Byte>)
    requires Partial(rest)
    ensures |rest| < RXBUF_SIZE
  {
  }

  lemma HeadLength(m: Message, tail: seq<Byte>)
    requires Fits(m)
    ensures FromBe32(Frame(m) + tail) == |m|
  {
    Be32RoundTrip(|m|);
    var s := Frame(m) + tail;
    assert s[0] == Be32(|m|)[0] && s[1] == Be32(|m|)[1] && s[2] == Be32(|m|)[2] && s[3] == Be32(|m|)[3];
  }

  /** Two streams that agree as far as the shorter goes start with the same message, as
      soon as it is complete in both. */
  lemma SameHead(a: Message, x: seq<Byte>, b: Message, y: seq<Byte>)
    requires Fits(a) && Fits(b) && Frame(a) + x <= Frame(b) + y
    ensures a == b && x <= y
  {
    var s, t := Frame(a) + x, Frame(b) + y;
    HeadLength(a, x);
    HeadLength(b, y);
    assert s[0] == t[0] && s[1] == t[1] && s[2] == t[2] && s[3] == t[3];
    assert |a| == |b|;
    assert a == s[4..4 + |a|] && b == t[4..4 + |b|];
    assert x == s[4 + |a|..] && y == t[4 + |b|..];
    assert forall i :: 0 <= i < |s| ==> s[i] == t[i];
  }

  /** If what was taken off a stream so far, plus some more bytes, is a prefix of the
      messages sent, then the messages taken off are the first of those sent. */
  lemma {:induction false} PrefixDecodes(got: seq<Message>, rest: seq<Byte>, sent: seq<Message>)
    requires AllFit(got) && AllFit(sent)
    requires Flat(got) + rest <= Flat(sent)
    ensures got <= sent
    decreases |got|
  {
    if got != [] {
      Peel(got, rest);
      if sent == [] {
        assert false;
      } else {
        FlatCons(sent);
        SameHead(got[0], Flat(got[1..]) + rest, sent[0], Flat(sent[1..]));
        PrefixDecodes(got[1..], rest, sent[1..]);
        assert got == [got[0]] + got[1..] && sent == [sent[0]] + sent[1..];
      }
    }
  }

  lemma Peel(ms: seq<Message>, rest: seq<Byte>)
    requires ms != [] && AllFit(ms)
    ensures Flat(ms) + rest == Frame(ms[0]) + (Flat(ms[1..]) + rest)
  {
    FlatCons(ms);
    assert Frame(ms[0]) + Flat(ms[1..]) + rest == Frame(ms[0]) + (Flat(ms[1..]) + rest);
  }

  /** A partial message holds no whole one. */
  lemma PartialHoldsNone(ms: seq<Message>, rest: seq<Byte>)
    requires AllFit(ms) && Partial(Flat(ms) + rest)
    ensures ms == [] && Flat(ms) + rest == rest
  {
    if ms != [] {
      Peel(ms, rest);
      HeadLength(ms[0], Flat(ms[1..]) + rest);
      assert false;
    }
  }

  /** How the bytes were chunked does not matter: a stream splits in only one way into
      whole messages and a partial one. */
  lemma {:induction false} SplitUnique(a: seq<Message>, r: seq<Byte>, b: seq<Message>, s: seq<Byte>)
    requires AllFit(a) && AllFit(b) && Partial(r) && Partial(s)
    requires Flat(a) + r == Flat(b) + s
    ensures a == b && r == s
    decreases |a|
  {
    if a == [] {
      assert Flat(a) + r == r;
      PartialHoldsNone(b, s);
    } else if b == [] {
      assert Flat(b) + s == s;
      PartialHoldsNone(a, r);
    } else {
      Peel(a, r);
      Peel(b, s);
      var x, y := Flat(a[1..]) + r, Flat(b[1..]) + s;
      SameHead(a[0], x, b[0], y);
      assert |x| == |y|;
      assert x == y;
      SplitUnique(a[1..], r, b[1..], s);
      assert a == [a[0]] + a[1..] && b == [b[0]] + b[1..];
    }
  }

  /** What is announced on a stream of messages is never oversized. */
  lemma {:induction false} NeverOversized(got: seq<Message>, rest: seq<Byte>, sent: seq<Message>)
    requires AllFit(got) && AllFit(sent)
    requires Flat(got) + rest <= Flat(sent)
    ensures !Oversized(rest)
    decreases |got|
  {
    if got == [] {
      assert Flat(got) + rest == rest;
      if sent != [] && |rest| >= 4 {
        FlatCons(sent);
        HeadLength(sent[0], Flat(sent[1..]));
        var s := Frame(sent[0]) + Flat(sent[1..]);
        assert rest[0] == s[0] && rest[1] == s[1] && rest[2] == s[2] && rest[3] == s[3];
      }
    } else if sent != [] {
      Peel(got, rest);
      FlatCons(sent);
      SameHead(got[0], Flat(got[1..]) + rest, sent[0], Flat(sent[1..]));
      NeverOversized(got[1..], rest, sent[1..]);
    } else {
      FlatCons(got);
      assert false;
    }
  }

  /** End to end. A sender has written some bytes and still holds the others of the messages
      it accepted; a receiver has read some of those written, in whatever chunks. Then the
      messages it has dispatched are the first of those accepted, in order and complete;
      and once everything is written and read they are exactly those accepted. */
  lemma EndToEnd(accepted: seq<Message>, written: seq<Byte>, backlog: seq<Byte>,
                 read: seq<Byte>, dispatched: seq<Message>, rest: seq<Byte>)
    requires AllFit(accepted) && AllFit(dispatched)
    requires written + backlog == Flat(accepted)
    requires read <= written && read == Flat(dispatched) + rest && Partial(rest)
    ensures dispatched <= accepted
    ensures read == written && backlog == [] ==> dispatched == accepted && rest == []
  {
    assert read <= Flat(accepted);
    PrefixDecodes(dispatched, rest, accepted);
    if read == written && backlog == [] {
      assert written + backlog == written && Flat(accepted) + [] == Flat(accepted);
      SplitUnique(dispatched, rest, accepted, []);
    }
  }
}
