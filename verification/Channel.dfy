/** The two ends of a hub socket in the form they run in: a writer with a bounded backlog
    under partial writes, and a reader that reassembles messages in a fixed buffer. */
module Channel {
  import opened Wire
  import opened Framing

  /** How one write() ends. A write of nothing counts as a failure. */
  datatype WriteResult = Wrote(n: nat) | Interrupted | WouldBlock | Broken

  /** A write that lets the loop go on: it took something, or was interrupted. */
  predicate Soft(r: WriteResult) {
    r.Interrupted? || (r.Wrote? && r.n > 0)
  }

  /** A write that closes the peer. */
  predicate Hard(r: WriteResult) {
    r.Broken? || r == Wrote(0)
  }

  /** How much a socket takes before a write would block or fails. */
  function Capacity(script: seq<WriteResult>): nat {
    if script == [] || !Soft(script[0]) then 0
    else (if script[0].Wrote? then script[0].n else 0) + Capacity(script[1..])
  }

  /** A hard error comes before n octets are taken, and before any write would block. */
  predicate Breaks(script: seq<WriteResult>, n: nat) {
    Capacity(script) < n && exists i :: 0 <= i < |script| && Hard(script[i]) && forall j :: 0 <= j < i ==> Soft(script[j])
  }

  /** What the first k writes add to the capacity. */
  lemma {:induction false} CapacityStep(script: seq<WriteResult>, k: nat)
    requires k < |script| && forall i :: 0 <= i < k ==> Soft(script[i])
    ensures Capacity(script[..k + 1])
         == Capacity(script[..k]) + if script[k].Wrote? then script[k].n else 0
  {
    if k == 0 {
      assert script[..1] == [script[0]] && script[..0] == [] && script[..1][1..] == [];
    } else {
      CapacityStep(script[1..], k - 1);
      assert script[..k][1..] == script[1..][..k - 1] && script[..k + 1][1..] == script[1..][..k];
    }
  }

  /** After soft writes only, the rest adds to the capacity; nothing if the next is not soft. */
  lemma {:induction false} CapacityRest(script: seq<WriteResult>, k: nat)
    requires k <= |script| && forall i :: 0 <= i < k ==> Soft(script[i])
    ensures Capacity(script) == Capacity(script[..k]) + Capacity(script[k..])
  {
    if k == 0 {
      assert script[0..] == script && script[..0] == [];
    } else {
      CapacityRest(script[1..], k - 1);
      assert script[..k][1..] == script[1..][..k - 1] && script[k..] == script[1..][k - 1..];
    }
  }

  /** What became of bytes to be buffered. */
  datatype Enqueued = Queued | Full | NoMemory

  /** What a socket that failed has taken: accepted messages, the last of them perhaps in
      part; or all of them and a part, but not the whole, of one that was not accepted. */
  ghost predicate Cut(accepted: seq<Message>, torn: seq<Message>, written: seq<Byte>) {
    && AllFit(accepted) && AllFit(torn) && |torn| <= 1
    && written <= Flat(accepted + torn) && (torn != [] ==> |written| < |Flat(accepted + torn)|)
  }

  /** The sending side of one peer. */
  class Outbox {
    var open: bool
    var outbuf: array?<Byte>
    var outused: nat
    var wantWrite: bool
    var txDropped: nat
    /** Bytes the socket has taken, and messages accepted for it. */
    ghost var written: seq<Byte>
    ghost var accepted: seq<Message>
    /** The message that was being written when the socket failed. */
    ghost var torn: seq<Message>

    ghost predicate Valid()
      reads this, outbuf
    {
      && BufferOk()
      && AllFit(accepted) && AllFit(torn)
      && (open ==> torn == [] && written + Backlog() == Flat(accepted) && wantWrite == (outused > 0))
      && (!open ==> Cut(accepted, torn, written))
    }

    ghost function Backlog(): seq<Byte>
      requires outbuf == null ==> outused == 0
      requires outbuf != null ==> outused <= outbuf.Length
      reads this, outbuf
    {
      if outbuf == null then [] else outbuf[..outused]
    }

    constructor ()
      ensures Valid() && open && written == [] && accepted == [] && Backlog() == []
    {
      open, outbuf, outused, wantWrite, txDropped := true, null, 0, false, 0;
      written, accepted, torn := [], [], [];
    }

    /** Writes as much of the data as the socket takes; the script says how each write
        ends, and a finite script that runs out means that the socket would block. Fails only
        on a hard error, and stops short otherwise only when a write would block. */
    method WriteSome(data: seq<Byte>, script: seq<WriteResult>) returns (off: nat, failed: bool)
      modifies this`written
      ensures off <= |data| && written == old(written) + data[..off]
      ensures off == Min(|data|, Capacity(script))
      ensures failed <==> Breaks(script, |data|)
    {
      off, failed := 0, false;
      var k := 0;
      assert data[..0] == [];
      while off < |data| && k < |script|
        invariant off <= |data| && 0 <= k <= |script| && !failed
        invariant forall i :: 0 <= i < k ==> Soft(script[i])
        invariant off == Min(|data|, Capacity(script[..k]))
        invariant written == old(written) + data[..off]
      {
        CapacityStep(script, k);
        CapacityRest(script, k);
        match script[k] {
          case Wrote(n) =>
            if n == 0 {
              failed := true;
              return;
            }
            var took := if n <= |data| - off then n else |data| - off;
            assert data[..off + took] == data[..off] + data[off..off + took];
            written := written + data[off..off + took];
            off := off + took;
          case Interrupted =>
          case WouldBlock =>
            return;
          case Broken =>
            failed := true;
            return;
        }
        k := k + 1;
      }
      CapacityRest(script, k);
    }

    method Close(ghost cut: seq<Message>)
      requires Cut(accepted, cut, written)
      modifies this
      ensures Valid() && !open && written == old(written) && accepted == old(accepted)
      ensures txDropped == old(txDropped)
    {
      open, outbuf, outused, wantWrite := false, null, 0, false;
      torn := cut;
    }

    /** Queues bytes at the end of the backlog. */
    method Append(data: seq<Byte>)
      requires outbuf != null && outbuf.Length == SEND_BUF_SIZE && outused + |data| <= SEND_BUF_SIZE
      modifies this`outused, outbuf
      ensures outused == old(outused) + |data| && outbuf[..outused] == old(outbuf[..outused]) + data
    {
      var i := 0;
      while i < |data|
        invariant 0 <= i <= |data| && outused == old(outused)
        invariant outbuf[..outused + i] == old(outbuf[..outused]) + data[..i]
      {
        outbuf[outused + i] := data[i];
        i := i + 1;
      }
      outused := outused + |data|;
    }

    /** Room in the shape the buffer invariant asks for. */
    ghost predicate BufferOk()
      reads this
    {
      if outbuf == null then outused == 0 else outbuf.Length == SEND_BUF_SIZE && outused <= SEND_BUF_SIZE
    }

    /** Buffers what the socket did not take, allocating the backlog on first use. */
    method Enqueue(data: seq<Byte>, noMemory: bool) returns (outcome: Enqueued)
      requires BufferOk()
      modifies this`outbuf, this`outused, this`wantWrite, this`txDropped, outbuf
      ensures BufferOk() && (outbuf == old(outbuf) || fresh(outbuf))
      ensures outcome.Queued? ==> Backlog() == old(Backlog()) + data && txDropped == old(txDropped)
      ensures !outcome.Queued? ==> Backlog() == old(Backlog())
      ensures outcome.Full? <==> txDropped == old(txDropped) + 1
      ensures outcome.Full? ==> old(outused) + |data| > SEND_BUF_SIZE
      ensures outcome.NoMemory? ==> txDropped == old(txDropped)
      ensures outcome.NoMemory? <==> noMemory && old(outbuf) == null
      ensures !outcome.NoMemory? ==> (outcome.Queued? <==> old(outused) + |data| <= SEND_BUF_SIZE)
      ensures wantWrite == if outcome.Queued? then true else old(wantWrite)
    {
      if outbuf == null {
        if noMemory { return NoMemory; }
        outbuf := new Byte[SEND_BUF_SIZE](_ => 0);
        outused := 0;
      }
      if outused + |data| > SEND_BUF_SIZE {
        txDropped := txDropped + 1;
        return Full;
      }
      Append(data);
      wantWrite := true;
      return Queued;
    }

    /** Sends one message: written at once as far as the socket takes it when nothing is
        queued, the remainder queued. A message that does not fit the backlog is dropped
        whole; a hard error (or a failed allocation) closes the peer. */
    method Send(m: Message, script: seq<WriteResult>, noMemory: bool) returns (ok: bool)
      requires Valid() && Fits(m)
      modifies this, outbuf
      ensures Valid()
      ensures !old(open) ==> !ok && !open && written == old(written) && accepted == old(accepted)
      ensures ok ==> open && accepted == old(accepted) + [m] && txDropped == old(txDropped)
      ensures !ok ==> accepted == old(accepted)
      ensures !ok && open ==>
        && written == old(written) && Backlog() == old(Backlog()) && txDropped == old(txDropped) + 1
        && old(outused) > 0 && old(outused) + 4 + |m| > SEND_BUF_SIZE
      ensures old(open) && old(outused) > 0 ==> open && (ok <==> old(outused) + 4 + |m| <= SEND_BUF_SIZE)
      ensures old(open) && old(outused) == 0 && Breaks(script, 4 + |m|) ==> !open
      ensures old(open) && old(outused) == 0 && !Breaks(script, 4 + |m|) && !noMemory ==> ok
      ensures old(open) && ok ==>
        written == old(written) + if old(outused) > 0 then [] else Frame(m)[..Min(4 + |m|, Capacity(script))]
      ensures ok ==> Backlog() == old(Backlog()) + if old(outused) > 0 then Frame(m) else Frame(m)[Min(4 + |m|, Capacity(script))..]
    {
      if !open { return false; }
      FlatSnoc(accepted, m);
      if outused > 0 {
        Straddle(written, Backlog(), Frame(m), 0);
        ok := SendRest(Frame(m), m, 0, noMemory);
      } else {
        ok := SendNow(Frame(m), m, script, noMemory);
      }
    }

    /** `data` is what message m adds to the stream. */
    ghost predicate Adds(data: seq<Byte>, m: Message)
      reads this
    {
      && AllFit(accepted) && AllFit(accepted + [m]) && 0 < |data| <= 4 + MAX_MSG_SIZE
      && Flat(accepted + [m]) == Flat(accepted) + data
    }

    /** Sends on an open peer with nothing queued. */
    method SendNow(data: seq<Byte>, ghost m: Message, script: seq<WriteResult>, noMemory: bool) returns (ok: bool)
      requires Valid() && open && outused == 0 && Adds(data, m)
      modifies this, outbuf
      ensures Valid() && (ok ==> open) && (!ok ==> !open)
      ensures accepted == if ok then old(accepted) + [m] else old(accepted)
      ensures ok ==> txDropped == old(txDropped)
      ensures (Breaks(script, |data|) ==> !ok) && (!Breaks(script, |data|) && !noMemory ==> ok)
      ensures ok ==> var off := Min(|data|, Capacity(script)); written == old(written) + data[..off] && Backlog() == data[off..]
    {
      ghost var before, queue := written, Backlog();
      assert queue == [];
      var off, failed := WriteSome(data, script);
      Straddle(before, queue, data, off);
      ok := Settle(data, m, off, failed, noMemory);
    }

    /** Closes, or accepts a message written whole, or buffers the rest of it. */
    method Settle(data: seq<Byte>, ghost m: Message, off: nat, failed: bool, noMemory: bool) returns (ok: bool)
      requires BufferOk() && open && torn == [] && outused == 0 && Adds(data, m) && off <= |data|
      requires failed ==> off < |data|
      requires !wantWrite
      requires written + (Backlog() + data[off..]) == Flat(accepted + [m])
      requires written <= Flat(accepted + [m])
      requires off == |data| ==> written + Backlog() == Flat(accepted + [m])
      requires off == 0 ==> written + Backlog() == Flat(accepted)
      modifies this, outbuf
      ensures Valid() && (ok ==> open) && (!ok ==> !open)
      ensures accepted == if ok then old(accepted) + [m] else old(accepted)
      ensures ok ==> txDropped == old(txDropped)
      ensures written == old(written) && (ok ==> Backlog() == data[off..])
      ensures (!failed && !noMemory ==> ok) && (failed ==> !ok)
    {
      if failed {
        Close([m]);
        return false;
      }
      if off == |data| {
        accepted := accepted + [m];
        return true;
      }
      ok := SendRest(data, m, off, noMemory);
    }

    /** Buffers the bytes of a message from `off` on. Since a message that was partly
        written finds the backlog empty, it always fits, so a drop never tears one. */
    method SendRest(data: seq<Byte>, ghost m: Message, off: nat, noMemory: bool) returns (ok: bool)
      requires BufferOk() && open && torn == [] && Adds(data, m)
      requires off < |data| && (off > 0 ==> outused == 0)
      requires written + (Backlog() + data[off..]) == Flat(accepted + [m])
      requires written <= Flat(accepted + [m])
      requires off == 0 ==> written + Backlog() == Flat(accepted)
      requires wantWrite == (outused > 0)
      modifies this, outbuf
      ensures Valid() && written == old(written)
      ensures (ok ==> Backlog() == old(Backlog()) + data[off..]) && (open <==> !(noMemory && old(outbuf) == null))
      ensures open ==> (ok <==> old(outused) + |data| - off <= SEND_BUF_SIZE)
      ensures ok ==> open && accepted == old(accepted) + [m] && txDropped == old(txDropped)
      ensures !ok ==> accepted == old(accepted)
      ensures !ok && open ==>
        && written == old(written) && Backlog() == old(Backlog()) && txDropped == old(txDropped) + 1
        && old(outused) > 0 && old(outused) + |data| > SEND_BUF_SIZE
    {
      var outcome := Enqueue(data[off..], noMemory);
      match outcome {
        case NoMemory =>
          Close([m]);
          return false;
        case Full =>
          return false;
        case Queued =>
          accepted := accepted + [m];
          return true;
      }
    }

    /** Drops the first `off` queued bytes by moving the others down. */
    method ShiftOut(off: nat)
      requires outbuf != null && outused <= outbuf.Length && off <= outused
      modifies this`outused, outbuf
      ensures outused == old(outused) - off && outbuf[..outused] == old(outbuf[..outused])[off..]
    {
      ghost var was := outbuf[..];
      var rem := outused - off;
      var i := 0;
      while i < rem
        invariant 0 <= i <= rem && outused == old(outused)
        invariant forall k :: 0 <= k < i ==> outbuf[k] == was[off + k]
        invariant forall k :: i <= k < outbuf.Length ==> outbuf[k] == was[k]
      {
        outbuf[i] := outbuf[off + i];
        i := i + 1;
      }
      outused := rem;
    }

    /** The socket can take bytes again. */
    method Flush(script: seq<WriteResult>)
      requires Valid()
      modifies this, outbuf
      ensures Valid() && accepted == old(accepted) && txDropped == old(txDropped)
      ensures open ==> wantWrite == (outused > 0) && written + Backlog() == old(written + Backlog())
      ensures open ==> old(open) && old(written) <= written
      ensures old(open) ==> (open <==> !Breaks(script, old(outused)))
      ensures open ==> |written| == |old(written)| + Min(old(outused), Capacity(script))
    {
      hide Flat;
      if !open || outused == 0 {
        wantWrite := false;
        return;
      }
      ghost var queue, before := outbuf[..outused], written;
      var off, failed := WriteSome(outbuf[..outused], script);
      Moved(before, queue, off);
      if failed {
        assert accepted + [] == accepted;
        Close([]);
        return;
      }
      if off > 0 {
        ShiftOut(off);
      }
      wantWrite := outused > 0;
    }
  }

  /** End to end on a socket that failed: whatever the receiver has read of the bytes the
      socket took, it has dispatched accepted messages only, the first of them, in order. */
  lemma ClosedEndToEnd(accepted: seq<Message>, torn: seq<Message>, written: seq<Byte>,
                       read: seq<Byte>, dispatched: seq<Message>, rest: seq<Byte>)
    requires Cut(accepted, torn, written) && AllFit(dispatched)
    requires read <= written && read == Flat(dispatched) + rest
    ensures dispatched <= accepted
  {
    var sent := accepted + torn;
    assert read <= Flat(sent);
    PrefixDecodes(dispatched, rest, sent);
    if |dispatched| == |sent| {
      assert dispatched == sent;
      assert torn == [];
    }
  }

  lemma Moved(written: seq<Byte>, queue: seq<Byte>, off: nat)
    requires off <= |queue|
    ensures written + queue[..off] + queue[off..] == written + queue
    ensures written + queue[..off] <= written + queue
    ensures off == 0 ==> queue[off..] == queue
  {
    assert queue == queue[..off] + queue[off..];
    assert written + queue[..off] == (written + queue)[..|written| + off];
  }

  lemma FlatSnoc(accepted: seq<Message>, m: Message)
    requires AllFit(accepted) && Fits(m)
    ensures AllFit(accepted + [m]) && Flat(accepted + [m]) == Flat(accepted) + Frame(m)
  {
    assert (accepted + [m])[..|accepted|] == accepted;
  }

  /** Where data stands after its first `off` bytes were written: nothing was queued before
      it, or nothing of it was written. */
  lemma Straddle(written: seq<Byte>, queue: seq<Byte>, data: seq<Byte>, off: nat)
    requires off <= |data| && (off == 0 || queue == [])
    ensures written + data[..off] + (queue + data[off..]) == written + queue + data
    ensures written + data[..off] <= written + queue + data
    ensures off == |data| ==> written + data[..off] + queue == written + queue + data
    ensures off == 0 ==> written + data[..off] == written
  {
    if off == 0 {
      assert data[..0] == [] && data[0..] == data;
    } else {
      assert data == data[..off] + data[off..];
    }
  }

  /** The receiving side of one peer. */
  class Inbox {
    const rxbuf: array<Byte>
    var rxused: nat
    /** Bytes read so far, and messages taken off them. */
    ghost var read: seq<Byte>
    ghost var dispatched: seq<Message>

    ghost predicate Tidy()
      reads this, rxbuf
    {
      AllFit(dispatched) && rxbuf.Length == RXBUF_SIZE && rxused <= RXBUF_SIZE && read == Flat(dispatched) + rxbuf[..rxused]
    }

    /** Between reads the buffer holds a partial message only, so there is room to read. */
    ghost predicate Valid()
      reads this, rxbuf
      ensures Valid() ==> rxused < RXBUF_SIZE
    {
      Tidy() && Partial(rxbuf[..rxused])
    }

    constructor ()
      ensures Valid() && read == [] && dispatched == [] && fresh(rxbuf)
    {
      rxbuf := new Byte[RXBUF_SIZE](_ => 0);
      rxused, read, dispatched := 0, [], [];
    }

    /** Moves what follows the first `total` bytes down to the front. */
    method Consume(total: nat)
      requires rxused <= rxbuf.Length && total <= rxused
      modifies this`rxused, rxbuf
      ensures rxused == old(rxused) - total && rxbuf[..rxused] == old(rxbuf[..rxused])[total..]
    {
      ghost var was := rxbuf[..];
      var rem := rxused - total;
      var i := 0;
      while i < rem
        invariant 0 <= i <= rem && rxused == old(rxused)
        invariant forall k :: 0 <= k < i ==> rxbuf[k] == was[total + k]
        invariant forall k :: i <= k < rxbuf.Length ==> rxbuf[k] == was[k]
      {
        rxbuf[i] := rxbuf[total + i];
        i := i + 1;
      }
      rxused := rem;
    }

    /** Takes every complete message off the buffer, in order. */
    method Drain() returns (got: seq<Message>, oversized: bool)
      requires Tidy()
      modifies this`rxused, this`dispatched, rxbuf
      ensures Tidy() && read == old(read) && dispatched == old(dispatched) + got
      ensures if oversized then Oversized(rxbuf[..rxused]) else Partial(rxbuf[..rxused])
    {
      hide Flat, Frame;
      got, oversized := [], false;
      while rxused >= 4
        invariant Tidy() && read == old(read) && dispatched == old(dispatched) + got && !oversized
        decreases rxused
      {
        ghost var buf := rxbuf[..rxused];
        var len := FromBe32(rxbuf[..4]);
        assert FromBe32(buf) == len;
        if len > MAX_MSG_SIZE {
          oversized := true;
          return;
        }
        if rxused < 4 + len { return; }
        var m: Message := rxbuf[4..4 + len];
        Consume(4 + len);
        TakeOff(read, dispatched, buf, m);
        dispatched := dispatched + [m];
        got := got + [m];
      }
    }

    /** The hub reads a chunk; an oversized announcement makes it close the peer. */
    method PeerReadable(chunk: seq<Byte>) returns (got: seq<Message>, close: bool)
      requires Valid() && 0 < |chunk| <= RXBUF_SIZE - rxused
      modifies this, rxbuf
      ensures read == old(read) + chunk && dispatched == old(dispatched) + got && Tidy()
      ensures if close then Oversized(rxbuf[..rxused]) else Valid()
    {
      Store(chunk);
      got, close := Drain();
      if !close { PartialFits(rxbuf[..rxused]); }
    }

    /** A controller reads a chunk. It stays connected when an oversized message is announced
        and throws away what it has not taken off; after that the stream counts from here.
        On a stream of messages that fit this never happens. */
    method MediumReadable(chunk: seq<Byte>) returns (got: seq<Message>, cleared: bool)
      requires Valid() && 0 < |chunk| <= RXBUF_SIZE - rxused
      modifies this, rxbuf
      ensures Valid() && dispatched == old(dispatched) + got
      ensures if cleared then rxused == 0 else read == old(read) + chunk
      ensures forall sent :: AllFit(sent) && old(read) + chunk <= Flat(sent) ==> !cleared
    {
      Store(chunk);
      got, cleared := Drain();
      forall sent | AllFit(sent) && read <= Flat(sent) ensures !cleared {
        NeverOversized(dispatched, rxbuf[..rxused], sent);
      }
      if cleared {
        rxused := 0;
        read := Flat(dispatched);
      } else {
        PartialFits(rxbuf[..rxused]);
      }
    }

    method Store(chunk: seq<Byte>)
      requires Tidy() && |chunk| <= RXBUF_SIZE - rxused
      modifies this`rxused, this`read, rxbuf
      ensures Tidy() && read == old(read) + chunk
    {
      var i := 0;
      while i < |chunk|
        invariant 0 <= i <= |chunk| && rxused == old(rxused) && read == old(read)
        invariant rxbuf[..rxused + i] == old(rxbuf[..rxused]) + chunk[..i]
      {
        rxbuf[rxused + i] := chunk[i];
        i := i + 1;
      }
      rxused := rxused + |chunk|;
      read := read + chunk;
    }
  }

  lemma TakeOff(read: seq<Byte>, dispatched: seq<Message>, buf: seq<Byte>, m: Message)
    requires AllFit(dispatched) && read == Flat(dispatched) + buf
    requires Fits(m) && |buf| >= 4 + |m| && FromBe32(buf) == |m| && m == buf[4..4 + |m|]
    ensures AllFit(dispatched + [m]) && read == Flat(dispatched + [m]) + buf[4 + |m|..]
  {
    FrameOfHead(buf, m);
    FlatSnoc(dispatched, m);
  }

  lemma FrameOfHead(buf: seq<Byte>, m: Message)
    requires Fits(m) && |buf| >= 4 + |m| && FromBe32(buf) == |m| && m == buf[4..4 + |m|]
    ensures buf == Frame(m) + buf[4 + |m|..]
  {
    Be32Inverse(buf[..4]);
    assert Be32(|m|) == buf[..4];
  }

  lemma Be32Inverse(b: seq<Byte>)
    requires |b| == 4
    ensures FromBe32(b) < 0x1_0000_0000 && Be32(FromBe32(b)) == b
  {
    var x := b[0] as int * 256 + b[1] as int;
    var y := x * 256 + b[2] as int;
    Divides(b[0], b[1]);
    Divides(x, b[2]);
    Divides(y, b[3]);
  }

  lemma Divides(q: nat, r: nat)
    requires r < 256
    ensures (q * 256 + r) / 256 == q && (q * 256 + r) % 256 == r
  {
  }
}
