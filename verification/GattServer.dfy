/** The peripheral that serves the database: the builder that fills it, writes to the
    client characteristic configuration descriptors (CCCDs), and who gets notified. */
module GattServer {
  import opened Wire
  import opened Gatt

  // ----------------------------------------------------------------- subscriptions

  /** What the server keeps: the database and the CCCD handles subscribed. */
  datatype Server = Server(db: seq<Entry>, subs: set<nat>)

  /** Bit 0 (notify) or bit 1 (indicate) of the first octet. */
  predicate Enables(val: seq<Byte>) {
    val != [] && val[0] % 4 != 0
  }

  function Stored(val: seq<Byte>): (r: seq<Byte>)
    ensures |r| == 2 && r[0] == (if |val| >= 1 then val[0] else 0) && r[1] == (if |val| >= 2 then val[1] else 0)
  {
    (val + [0, 0])[..2]
  }

  predicate IsCccd(db: seq<Entry>, h: nat) {
    1 <= h <= |db| && db[h - 1].attr.Cccd?
  }

  const CCCD_UUID := Short(0x2902)

  /** The type of the attribute is that of a CCCD. A characteristic may have that UUID, too. */
  predicate TypedCccd(a: Attr) {
    a.Cccd? || (a.Value? && a.uuid == CCCD_UUID)
  }

  /** A write to h is taken for one to a CCCD. */
  predicate Writable(db: seq<Entry>, h: nat) {
    1 <= h <= |db| && TypedCccd(db[h - 1].attr)
  }

  /** A write request or command. */
  function Written(s: Server, h: nat, val: seq<Byte>): Server {
    if !Writable(s.db, h) then s
    else
      Server(s.db[h - 1 := Entry(h, Cccd(Stored(val)))], if Enables(val) then s.subs + {h} else s.subs - {h})
  }

  /** A connection begins or ends. */
  function Cleared(s: Server): Server {
    s.(subs := {})
  }

  datatype Event = Wrote(handle: nat, val: seq<Byte>) | Linked | Terminated

  function Next(s: Server, e: Event): Server {
    match e
    case Wrote(h, val) => Written(s, h, val)
    case Linked => Cleared(s)
    case Terminated => Cleared(s)
  }

  function After(db: seq<Entry>, es: seq<Event>): Server {
    if es == [] then Server(db, {}) else Next(After(db, es[..|es| - 1]), es[|es| - 1])
  }

  /** The last value written to h. */
  function LastWrite(es: seq<Event>, h: nat): Option<seq<Byte>> {
    if es == [] then None
    else
      var e := es[|es| - 1];
      if e.Wrote? && e.handle == h then Some(e.val) else LastWrite(es[..|es| - 1], h)
  }

  /** The last value written to h since a connection last began or ended. */
  function LastWriteHere(es: seq<Event>, h: nat): Option<seq<Byte>> {
    if es == [] then None
    else
      var e := es[|es| - 1];
      if !e.Wrote? then None
      else if e.handle == h then Some(e.val)
      else LastWriteHere(es[..|es| - 1], h)
  }

  /** The value's first octet has bit 0 (notify) or bit 1 (indicate) set. */
  lemma EnablesBits(val: seq<Byte>)
    ensures Enables(val) <==> |val| >= 1 && (val[0] % 2 == 1 || val[0] / 2 % 2 == 1)
  {
  }

  /** Over every run: the database keeps its shape; a handle is subscribed exactly when it is
      typed as a CCCD and the last write to it in this connection enabled it; and it holds
      the last value ever written. */
  lemma {:induction false} SubscribedIff(db: seq<Entry>, es: seq<Event>, h: nat)
    requires Numbered(db, 1)
    ensures var s := After(db, es); var here := LastWriteHere(es, h); var last := LastWrite(es, h);
      && |s.db| == |db| && Numbered(s.db, 1)
      && (Writable(s.db, h) <==> Writable(db, h))
      && (h in s.subs <==> Writable(db, h) && here.Some? && Enables(here.value))
      && (1 <= h <= |db| ==>
            s.db[h - 1] == if Writable(db, h) && last.Some? then Entry(h, Cccd(Stored(last.value))) else db[h - 1])
  {
    if es != [] {
      SubscribedIff(db, es[..|es| - 1], h);
      var e := es[|es| - 1];
      if e.Wrote? {
        SubscribedIff(db, es[..|es| - 1], e.handle);
      }
    }
  }

  lemma StoredEnables(val: seq<Byte>)
    ensures Enables(Stored(val)) <==> Enables(val)
  {
    if val == [] {
      assert Stored(val) == [0, 0];
    } else {
      assert Stored(val)[0] == val[0];
    }
  }

  lemma {:induction false} HereIsLast(es: seq<Event>, h: nat)
    ensures LastWriteHere(es, h).Some? ==> LastWriteHere(es, h) == LastWrite(es, h)
  {
    if es != [] {
      HereIsLast(es[..|es| - 1], h);
    }
  }

  /** A CCCD that a client reads as enabled is subscribed, except when the enabling write
      came before the present connection: then it is stale, and only then. A subscribed
      CCCD always reads as enabled. */
  lemma StaleIff(db: seq<Entry>, es: seq<Event>, h: nat)
    requires Numbered(db, 1) && IsCccd(db, h) && db[h - 1].attr.stored == [0, 0]
    ensures var s := After(db, es);
      && IsCccd(s.db, h)
      && (h in s.subs ==> Enables(s.db[h - 1].attr.stored))
      && ((Enables(s.db[h - 1].attr.stored) <==> h in s.subs)
          <==> !(LastWriteHere(es, h).None? && LastWrite(es, h).Some? && Enables(LastWrite(es, h).value)))
  {
    SubscribedIff(db, es, h);
    HereIsLast(es, h);
    if LastWrite(es, h).Some? {
      StoredEnables(LastWrite(es, h).value);
    }
  }

  // --------------------------------------------------------------------- the device

  lemma CharAppends(db: seq<Entry>, h: nat, c: CharSpec, secure: bool)
    ensures var props := Effective(c.props);
      var two := (db + [Entry(h, Declaration(props, h + 1, c.uuid))]) + [Entry(h + 1, Value(c.uuid, secure))];
      && db + CharEntries(h, c, secure) == (if Notifies(props) then two + [Entry(h + 2, Cccd([0, 0]))] else two)
      && |CharEntries(h, c, secure)| == if Notifies(props) then 3 else 2
  {
  }

  lemma CharsNext(done: seq<Entry>, h: nat, chars: seq<CharSpec>, i: nat, secure: bool)
    requires i < |chars|
    ensures var c := CharEntries(h, chars[i], secure);
      && done + CharsEntries(h, chars[i..], secure) == (done + c) + CharsEntries(h + |c|, chars[i + 1..], secure)
      && |CharsEntries(h, chars[i..], secure)| == |c| + |CharsEntries(h + |c|, chars[i + 1..], secure)|
  {
    assert chars[i..][1..] == chars[i + 1..];
  }

  lemma BuildNext(db: seq<Entry>, rs: seq<Range>, h: nat, specs: seq<SvcSpec>, i: nat, minLevel: nat)
    requires i < |specs|
    ensures var s := SvcEntries(h, specs[i], minLevel); var next := h + |s|;
      && db + Build(h, specs[i..], minLevel) == (db + s) + Build(next, specs[i + 1..], minLevel)
      && rs + Ranges(h, specs[i..], minLevel)
         == (rs + [Range(h, next - 1, specs[i].uuid)]) + Ranges(next, specs[i + 1..], minLevel)
  {
    assert specs[i..][1..] == specs[i + 1..];
  }

  class Device {
    var db: seq<Entry>
    var services: seq<Range>
    /** CCCD handle and value handle, in the order of the database. */
    var cccds: seq<(nat, nat)>
    var subs: set<nat>

    ghost function Model(): Server
      reads this
    {
      Server(db, subs)
    }

    constructor (specs: seq<SvcSpec>, minLevel: nat)
      ensures db == Build(1, specs, minLevel) && services == Ranges(1, specs, minLevel)
      ensures CccdPairs(db) == cccds && subs == {}
    {
      db, services, cccds, subs := [], [], [], {};
      new;
      BuildGatt(specs, minLevel);
    }

    method BuildGatt(specs: seq<SvcSpec>, minLevel: nat)
      requires db == [] && services == [] && cccds == []
      modifies this`db, this`services, this`cccds
      ensures db == Build(1, specs, minLevel) && services == Ranges(1, specs, minLevel)
      ensures CccdPairs(db) == cccds
    {
      hide Build, Ranges, SvcEntries;
      var handle := 1;
      assert specs[0..] == specs;
      for i := 0 to |specs|
        invariant handle >= 1 && CccdPairs(db) == cccds
        invariant Build(1, specs, minLevel) == db + Build(handle, specs[i..], minLevel)
        invariant Ranges(1, specs, minLevel) == services + Ranges(handle, specs[i..], minLevel)
      {
        BuildNext(db, services, handle, specs, i, minLevel);
        var start := handle;
        handle := AddService(handle, specs[i], minLevel);
        services := services + [Range(start, handle - 1, specs[i].uuid)];
      }
      BuildEnds(db, services, handle, specs, minLevel);
    }

    /** Appends one service and its characteristics. */
    method AddService(h: nat, s: SvcSpec, minLevel: nat) returns (handle: nat)
      requires h >= 1 && CccdPairs(db) == cccds
      modifies this`db, this`cccds
      ensures db == old(db) + SvcEntries(h, s, minLevel)
      ensures handle == h + |SvcEntries(h, s, minLevel)| && handle > h
      ensures CccdPairs(db) == cccds
    {
      AddEntry(Entry(h, Primary(s.uuid)));
      handle := AddChars(h + 1, s.chars, Secure(s.uuid, minLevel));
      Assoc(old(db), [Entry(h, Primary(s.uuid))], CharsEntries(h + 1, s.chars, Secure(s.uuid, minLevel)));
    }

    method AddChars(h: nat, chars: seq<CharSpec>, secure: bool) returns (handle: nat)
      requires h >= 1 && CccdPairs(db) == cccds
      modifies this`db, this`cccds
      ensures db == old(db) + CharsEntries(h, chars, secure)
      ensures handle == h + |CharsEntries(h, chars, secure)|
      ensures CccdPairs(db) == cccds
    {
      handle := h;
      assert chars[0..] == chars;
      for i := 0 to |chars|
        invariant handle >= 1 && handle + |CharsEntries(handle, chars[i..], secure)| == h + |CharsEntries(h, chars, secure)|
        invariant old(db) + CharsEntries(h, chars, secure) == db + CharsEntries(handle, chars[i..], secure)
        invariant CccdPairs(db) == cccds
      {
        CharsNext(db, handle, chars, i, secure);
        handle := AddChar(handle, chars[i], secure);
      }
      assert chars[|chars|..] == [] && db + [] == db;
    }

    method AddEntry(e: Entry)
      requires !e.attr.Cccd? && CccdPairs(db) == cccds
      modifies this`db
      ensures db == old(db) + [e] && CccdPairs(db) == cccds
    {
      CccdPairsSnoc(db, e);
      db := db + [e];
    }

    /** Appends a characteristic: declaration, value and, if it notifies, CCCD. */
    method AddChar(h: nat, c: CharSpec, secure: bool) returns (handle: nat)
      requires h >= 1 && CccdPairs(db) == cccds
      modifies this`db, this`cccds
      ensures db == old(db) + CharEntries(h, c, secure)
      ensures handle == h + |CharEntries(h, c, secure)|
      ensures CccdPairs(db) == cccds
    {
      var props := Effective(c.props);
      var valHandle := h + 1;
      CharAppends(db, h, c, secure);
      AddEntry(Entry(h, Declaration(props, valHandle, c.uuid)));
      AddEntry(Entry(valHandle, Value(c.uuid, secure)));
      handle := h + 2;
      if Notifies(props) {
        AddCccd(handle, valHandle);
        handle := handle + 1;
      }
    }

    method AddCccd(h: nat, valHandle: nat)
      requires h == valHandle + 1 && CccdPairs(db) == cccds
      modifies this`db, this`cccds
      ensures db == old(db) + [Entry(h, Cccd([0, 0]))] && CccdPairs(db) == cccds
    {
      CccdPairsSnoc(db, Entry(h, Cccd([0, 0])));
      db := db + [Entry(h, Cccd([0, 0]))];
      cccds := cccds + [(h, valHandle)];
    }

    /** A write: the entry with that handle, if it is a CCCD. */
    method HandleWrite(h: nat, val: seq<Byte>)
      requires Numbered(db, 1)
      modifies this`db, this`subs
      ensures Model() == Written(old(Model()), h, val) && Numbered(db, 1)
    {
      var i := 0;
      while i < |db|
        invariant i <= |db| && db == old(db) && subs == old(subs)
        invariant !(1 <= h <= i && Writable(db, h))
      {
        if db[i].handle == h && TypedCccd(db[i].attr) {
          db := db[i := Entry(h, Cccd((val + [0, 0])[..2]))];
          if val != [] && val[0] % 4 != 0 {
            subs := subs + {h};
          } else {
            subs := subs - {h};
          }
          return;
        }
        i := i + 1;
      }
    }

    /** A CONNECT_IND accepted, or a TERMINATE_IND. */
    method ClearSubscriptions()
      modifies this`subs
      ensures Model() == Cleared(old(Model()))
    {
      subs := {};
    }

    /** The values to notify: those whose CCCD is subscribed, each once, in order. */
    method NotifyHandles() returns (out: seq<nat>)
      ensures out == Chosen(cccds, subs)
    {
      out := [];
      var i := 0;
      assert cccds[0..] == cccds;
      while i < |cccds|
        invariant i <= |cccds|
        invariant Chosen(cccds, subs) == out + Chosen(cccds[i..], subs)
      {
        assert cccds[i..][1..] == cccds[i + 1..];
        if cccds[i].0 in subs { out := out + [cccds[i].1]; }
        i := i + 1;
      }
      assert cccds[i..] == [];
    }
  }

  lemma BuildEnds(db: seq<Entry>, rs: seq<Range>, h: nat, specs: seq<SvcSpec>, minLevel: nat)
    ensures db + Build(h, specs[|specs|..], minLevel) == db
    ensures rs + Ranges(h, specs[|specs|..], minLevel) == rs
  {
    assert specs[|specs|..] == [];
  }

  // ------------------------------------------------------------ who gets notified

  /** The CCCD handles of a database, each with the handle before it. */
  function CccdPairs(db: seq<Entry>): seq<(nat, nat)> {
    if db == [] then []
    else
      var e := db[|db| - 1];
      CccdPairs(db[..|db| - 1]) + (if e.attr.Cccd? && e.handle > 0 then [(e.handle, e.handle - 1)] else [])
  }

  lemma CccdPairsSnoc(db: seq<Entry>, e: Entry)
    ensures CccdPairs(db + [e]) == CccdPairs(db) + (if e.attr.Cccd? && e.handle > 0 then [(e.handle, e.handle - 1)] else [])
  {
    assert (db + [e])[..|db|] == db;
  }

  function Chosen(pairs: seq<(nat, nat)>, subs: set<nat>): seq<nat> {
    if pairs == [] then [] else (if pairs[0].0 in subs then [pairs[0].1] else []) + Chosen(pairs[1..], subs)
  }

  lemma {:induction false} ChosenMembers(pairs: seq<(nat, nat)>, subs: set<nat>, v: nat)
    ensures v in Chosen(pairs, subs) <==> exists h :: (h, v) in pairs && h in subs
  {
    if pairs != [] {
      ChosenMembers(pairs[1..], subs, v);
      if pairs[0].1 == v && pairs[0].0 in subs {
        assert (pairs[0].0, v) in pairs;
      }
      forall h | (h, v) in pairs && h in subs ensures v in Chosen(pairs, subs) {
        if (h, v) != pairs[0] { assert (h, v) in pairs[1..]; }
      }
    }
  }

  lemma {:induction false} CccdPairsMembers(db: seq<Entry>, h: nat, v: nat)
    requires Numbered(db, 1)
    ensures (h, v) in CccdPairs(db) <==> IsCccd(db, h) && h == v + 1
  {
    if db != [] {
      CccdPairsMembers(db[..|db| - 1], h, v);
    }
  }

  /** Over every run of a built device, the handle that gets notified is that of a
      characteristic value whose declaration notifies and whose CCCD was last written in
      this connection with a value that enables it; and every such value gets notified. */
  lemma NotifiedIff(specs: seq<SvcSpec>, minLevel: nat, es: seq<Event>, v: nat)
    ensures var db := Build(1, specs, minLevel); var subs := After(db, es).subs;
      v in Chosen(CccdPairs(db), subs) <==>
      && IsCccd(db, v + 1)
      && v >= 2 && db[v - 1].attr.Value? && db[v - 2].attr.Declaration? && Notifies(db[v - 2].attr.props)
      && LastWriteHere(es, v + 1).Some? && Enables(LastWriteHere(es, v + 1).value)
  {
    hide Build, After, PairedAt;
    var db := Build(1, specs, minLevel);
    HandlesInOrder(1, specs, minLevel);
    ValuesFollow(1, specs, minLevel);
    ChosenIff(db, After(db, es).subs, v);
    SubscribedIff(db, es, v + 1);
    if IsCccd(db, v + 1) {
      assert PairedAt(db, v);
      CccdAfterValue(db, v);
    }
  }

  lemma ChosenIff(db: seq<Entry>, subs: set<nat>, v: nat)
    requires Numbered(db, 1)
    ensures v in Chosen(CccdPairs(db), subs) <==> IsCccd(db, v + 1) && v + 1 in subs
  {
    ChosenMembers(CccdPairs(db), subs, v);
    CccdPairsMembers(db, v + 1, v);
    if v in Chosen(CccdPairs(db), subs) {
      var h :| (h, v) in CccdPairs(db) && h in subs;
      CccdPairsMembers(db, h, v);
    }
  }

  lemma CccdAfterValue(db: seq<Entry>, v: nat)
    requires Paired(db) && v < |db| && db[v].attr.Cccd?
    ensures v >= 2 && db[v - 1].attr.Value? && db[v - 2].attr.Declaration? && Notifies(db[v - 2].attr.props)
  {
    assert PairedAt(db, v);
    assert PairedAt(db, v - 2);
  }
}
