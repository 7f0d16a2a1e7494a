/** The GATT database of a simulated peripheral: how handles are given out, how a client
    discovers the services, and which characteristics notify. */
module Gatt {
  import opened Wire

  const MAX_HANDLE: nat := 0xFFFF

  datatype Uuid = Short(value: nat) | Long(octets: seq<Byte>)

  /** Octets a UUID takes in a reply: the vendor UUIDs have 16. */
  function Width(u: Uuid): nat {
    if u.Short? then 2 else 16
  }

  datatype Prop = Read | Write | WriteNoResponse | Notify | Indicate

  datatype CharSpec = CharSpec(uuid: Uuid, props: set<Prop>)

  datatype SvcSpec = SvcSpec(uuid: Uuid, chars: seq<CharSpec>)

  datatype Attr =
    | Primary(uuid: Uuid)
    | Declaration(props: set<Prop>, valHandle: nat, uuid: Uuid)
    | Value(uuid: Uuid, secure: bool)
    | Cccd(stored: seq<Byte>)

  datatype Entry = Entry(handle: nat, attr: Attr)

  datatype Range = Range(start: nat, end: nat, uuid: Uuid)

  // ------------------------------------------------------------ the builder's result

  function Effective(props: set<Prop>): set<Prop> {
    if props == {} then {Read} else props
  }

  predicate Notifies(props: set<Prop>) {
    Notify in props || Indicate in props
  }

  /** Whether the values of a service need an encrypted link. */
  predicate Secure(u: Uuid, minLevel: nat) {
    minLevel > 1 && u != Short(0x1800) && u != Short(0x1801) && u != Short(0x180A)
  }

  function CharEntries(h: nat, c: CharSpec, secure: bool): (r: seq<Entry>) {
    [Entry(h, Declaration(Effective(c.props), h + 1, c.uuid)), Entry(h + 1, Value(c.uuid, secure))]
    + (if Notifies(Effective(c.props)) then [Entry(h + 2, Cccd([0, 0]))] else [])
  }

  function CharsEntries(h: nat, chars: seq<CharSpec>, secure: bool): seq<Entry>
    decreases chars
  {
    if chars == [] then []
    else
      var first := CharEntries(h, chars[0], secure);
      first + CharsEntries(h + |first|, chars[1..], secure)
  }

  function SvcEntries(h: nat, s: SvcSpec, minLevel: nat): seq<Entry> {
    [Entry(h, Primary(s.uuid))] + CharsEntries(h + 1, s.chars, Secure(s.uuid, minLevel))
  }

  function Build(h: nat, specs: seq<SvcSpec>, minLevel: nat): seq<Entry>
    decreases specs
  {
    if specs == [] then []
    else
      var first := SvcEntries(h, specs[0], minLevel);
      first + Build(h + |first|, specs[1..], minLevel)
  }

  function Ranges(h: nat, specs: seq<SvcSpec>, minLevel: nat): (r: seq<Range>)
    ensures |r| == |specs|
    decreases specs
  {
    if specs == [] then []
    else
      var n := |SvcEntries(h, specs[0], minLevel)|;
      [Range(h, h + n - 1, specs[0].uuid)] + Ranges(h + n, specs[1..], minLevel)
  }

  // --------------------------------------------------------------- handles in order

  predicate Numbered(db: seq<Entry>, h: nat) {
    forall i :: 0 <= i < |db| ==> db[i].handle == h + i
  }

  lemma {:induction false} CharsNumbered(h: nat, chars: seq<CharSpec>, secure: bool)
    ensures Numbered(CharsEntries(h, chars, secure), h)
    decreases chars
  {
    if chars != [] {
      CharsNumbered(h + |CharEntries(h, chars[0], secure)|, chars[1..], secure);
    }
  }

  /** Handles are given out once each, in order, without a gap. */
  lemma {:induction false} HandlesInOrder(h: nat, specs: seq<SvcSpec>, minLevel: nat)
    ensures Numbered(Build(h, specs, minLevel), h)
    decreases specs
  {
    if specs != [] {
      CharsNumbered(h + 1, specs[0].chars, Secure(specs[0].uuid, minLevel));
      HandlesInOrder(h + |SvcEntries(h, specs[0], minLevel)|, specs[1..], minLevel);
    }
  }

  // -------------------------------------------------- declarations, values and CCCDs

  /** Every declaration is followed by its value, and by a CCCD exactly when it notifies;
      no value and no CCCD stands elsewhere. */
  predicate Paired(db: seq<Entry>) {
    forall i :: 0 <= i < |db| ==> PairedAt(db, i)
  }

  predicate PairedAt(db: seq<Entry>, i: nat)
    requires i < |db|
  {
    match db[i].attr
    case Primary(_) => true
    case Declaration(props, v, uuid) =>
      && i + 1 < |db| && db[i + 1].handle == v && db[i + 1].attr.Value? && db[i + 1].attr.uuid == uuid
      && (Notifies(props) <==> i + 2 < |db| && db[i + 2].attr.Cccd?)
    case Value(_, _) => i >= 1 && db[i - 1].attr.Declaration?
    case Cccd(_) => i >= 2 && db[i - 2].attr.Declaration? && Notifies(db[i - 2].attr.props)
  }

  lemma PairedConcat(a: seq<Entry>, b: seq<Entry>)
    requires Paired(a) && Paired(b)
    ensures Paired(a + b)
  {
    var c := a + b;
    forall i | 0 <= i < |c| ensures PairedAt(c, i) {
      if i < |a| {
        assert PairedAt(a, i);
        if i + 2 == |a| && b != [] { assert PairedAt(b, 0); }
      } else {
        assert PairedAt(b, i - |a|);
      }
    }
  }

  lemma {:induction false} CharsPaired(h: nat, chars: seq<CharSpec>, secure: bool)
    ensures Paired(CharsEntries(h, chars, secure))
    decreases chars
  {
    if chars != [] {
      var first := CharEntries(h, chars[0], secure);
      CharsPaired(h + |first|, chars[1..], secure);
      PairedConcat(first, CharsEntries(h + |first|, chars[1..], secure));
    }
  }

  /** Each value handle follows its declaration, which names it. */
  lemma {:induction false} ValuesFollow(h: nat, specs: seq<SvcSpec>, minLevel: nat)
    ensures Paired(Build(h, specs, minLevel))
    decreases specs
  {
    if specs != [] {
      var first := SvcEntries(h, specs[0], minLevel);
      CharsPaired(h + 1, specs[0].chars, Secure(specs[0].uuid, minLevel));
      PairedConcat([Entry(h, Primary(specs[0].uuid))], CharsEntries(h + 1, specs[0].chars, Secure(specs[0].uuid, minLevel)));
      ValuesFollow(h + |first|, specs[1..], minLevel);
      PairedConcat(first, Build(h + |first|, specs[1..], minLevel));
    }
  }

  // --------------------------------------------------------- where everything stands

  /** Attributes that a characteristic takes: declaration, value and, if it notifies or
      indicates, a CCCD. */
  function CharSize(c: CharSpec): nat {
    if Notify in c.props || Indicate in c.props then 3 else 2
  }

  function CharsSize(chars: seq<CharSpec>): nat {
    if chars == [] then 0 else CharSize(chars[0]) + CharsSize(chars[1..])
  }

  function SpecsSize(specs: seq<SvcSpec>): nat {
    if specs == [] then 0 else 1 + CharsSize(specs[0].chars) + SpecsSize(specs[1..])
  }

  lemma {:induction false} CharsEntriesSize(h: nat, chars: seq<CharSpec>, secure: bool)
    ensures |CharsEntries(h, chars, secure)| == CharsSize(chars)
    decreases chars
  {
    if chars != [] {
      CharsEntriesSize(h + |CharEntries(h, chars[0], secure)|, chars[1..], secure);
    }
  }

  lemma {:induction false} BuildSize(h: nat, specs: seq<SvcSpec>, minLevel: nat)
    ensures |Build(h, specs, minLevel)| == SpecsSize(specs)
    decreases specs
  {
    if specs != [] {
      CharsEntriesSize(h + 1, specs[0].chars, Secure(specs[0].uuid, minLevel));
      BuildSize(h + |SvcEntries(h, specs[0], minLevel)|, specs[1..], minLevel);
    }
  }

  /** The attributes of one characteristic from position i on. */
  predicate Holds(db: seq<Entry>, h: nat, i: nat, c: CharSpec, secure: bool) {
    && i + CharSize(c) <= |db|
    && db[i] == Entry(h + i, Declaration(if c.props == {} then {Read} else c.props, h + i + 1, c.uuid))
    && db[i + 1] == Entry(h + i + 1, Value(c.uuid, secure))
    && (Notify in c.props || Indicate in c.props ==> db[i + 2] == Entry(h + i + 2, Cccd([0, 0])))
  }

  lemma {:induction false} CharsHold(h: nat, chars: seq<CharSpec>, secure: bool, j: nat)
    requires j < |chars|
    ensures Holds(CharsEntries(h, chars, secure), h, CharsSize(chars[..j]), chars[j], secure)
    decreases chars
  {
    var first := CharEntries(h, chars[0], secure);
    var rest := CharsEntries(h + |first|, chars[1..], secure);
    assert |first| == CharSize(chars[0]);
    if j == 0 {
      assert chars[..0] == [];
    } else {
      CharsHold(h + |first|, chars[1..], secure, j - 1);
      assert chars[..j][1..] == chars[1..][..j - 1];
      Shifted(first, rest, h, CharsSize(chars[1..][..j - 1]), chars[j], secure);
    }
  }

  lemma Shifted(a: seq<Entry>, b: seq<Entry>, h: nat, i: nat, c: CharSpec, secure: bool)
    requires Holds(b, h + |a|, i, c, secure)
    ensures Holds(a + b, h, |a| + i, c, secure)
  {
  }

  /** The values of a service need encryption if the device asks for it and the service is
      none of the three open ones. */
  predicate Guarded(u: Uuid, minLevel: nat) {
    minLevel > 1 && !(u == Short(0x1800) || u == Short(0x1801) || u == Short(0x180A))
  }

  /** A service from position i on: its declaration, and its characteristics one after the
      other. */
  predicate Serves(db: seq<Entry>, h: nat, i: nat, s: SvcSpec, minLevel: nat) {
    && i < |db| && db[i] == Entry(h + i, Primary(s.uuid))
    && forall j :: 0 <= j < |s.chars| ==> Holds(db, h, i + 1 + CharsSize(s.chars[..j]), s.chars[j], Guarded(s.uuid, minLevel))
  }

  lemma ServesShifted(a: seq<Entry>, b: seq<Entry>, h: nat, i: nat, s: SvcSpec, minLevel: nat)
    requires Serves(b, h + |a|, i, s, minLevel)
    ensures Serves(a + b, h, |a| + i, s, minLevel)
  {
    hide Holds, CharsSize;
    forall j | 0 <= j < |s.chars|
      ensures Holds(a + b, h, |a| + i + 1 + CharsSize(s.chars[..j]), s.chars[j], Guarded(s.uuid, minLevel))
    {
      Shifted(a, b, h, i + 1 + CharsSize(s.chars[..j]), s.chars[j], Guarded(s.uuid, minLevel));
    }
  }

  lemma FirstServes(h: nat, s: SvcSpec, minLevel: nat, rest: seq<Entry>)
    ensures Serves(SvcEntries(h, s, minLevel) + rest, h, 0, s, minLevel)
  {
    hide Holds, CharsSize, CharsEntries;
    forall j | 0 <= j < |s.chars|
      ensures Holds(SvcEntries(h, s, minLevel) + rest, h, 0 + 1 + CharsSize(s.chars[..j]), s.chars[j], Guarded(s.uuid, minLevel))
    {
      CharsHold(h + 1, s.chars, Secure(s.uuid, minLevel), j);
      FirstHolds(h, s, minLevel, rest, CharsSize(s.chars[..j]), s.chars[j]);
    }
  }

  /** The database holds exactly what the profile says: each service opens where the services
      before it end; each characteristic follows those before it, with its UUID and its
      properties (or Read, if it has none), its value behind it, and a CCCD behind that if it
      notifies or indicates. */
  lemma {:induction false} ProfileBuilt(h: nat, specs: seq<SvcSpec>, minLevel: nat, k: nat)
    requires k < |specs|
    ensures |Build(h, specs, minLevel)| == SpecsSize(specs)
    ensures Serves(Build(h, specs, minLevel), h, SpecsSize(specs[..k]), specs[k], minLevel)
    decreases specs
  {
    hide Serves, CharsEntries;
    BuildSize(h, specs, minLevel);
    var first := SvcEntries(h, specs[0], minLevel);
    var rest := Build(h + |first|, specs[1..], minLevel);
    if k == 0 {
      assert specs[..0] == [];
      FirstServes(h, specs[0], minLevel, rest);
    } else {
      ProfileBuilt(h + |first|, specs[1..], minLevel, k - 1);
      assert specs[..k][1..] == specs[1..][..k - 1];
      CharsEntriesSize(h + 1, specs[0].chars, Secure(specs[0].uuid, minLevel));
      ServesShifted(first, rest, h, SpecsSize(specs[1..][..k - 1]), specs[k], minLevel);
    }
  }

  lemma FirstHolds(h: nat, s: SvcSpec, minLevel: nat, rest: seq<Entry>, i: nat, c: CharSpec)
    requires Holds(CharsEntries(h + 1, s.chars, Secure(s.uuid, minLevel)), h + 1, i, c, Secure(s.uuid, minLevel))
    ensures Holds(SvcEntries(h, s, minLevel) + rest, h, 1 + i, c, Secure(s.uuid, minLevel))
  {
  }

  // ------------------------------------------------------------------ service ranges

  /** The ranges tile the handles from h to top - 1. */
  predicate Tiles(rs: seq<Range>, h: nat, top: nat) {
    if rs == [] then h == top
    else rs[0].start == h <= rs[0].end < top && Tiles(rs[1..], rs[0].end + 1, top)
  }

  /** The ranges start at the service declarations, and there only. */
  predicate Opens(db: seq<Entry>, rs: seq<Range>, h: nat) {
    forall i :: 0 <= i < |db| ==>
      (db[i].attr.Primary? <==> exists k :: 0 <= k < |rs| && rs[k].start == h + i && db[i].attr == Primary(rs[k].uuid))
  }

  lemma {:induction false} CharsHoldNoService(h: nat, chars: seq<CharSpec>, secure: bool)
    ensures forall i :: 0 <= i < |CharsEntries(h, chars, secure)| ==> !CharsEntries(h, chars, secure)[i].attr.Primary?
    decreases chars
  {
    if chars != [] {
      CharsHoldNoService(h + |CharEntries(h, chars[0], secure)|, chars[1..], secure);
    }
  }

  lemma {:induction false} RangesTile(h: nat, specs: seq<SvcSpec>, minLevel: nat)
    ensures Tiles(Ranges(h, specs, minLevel), h, h + |Build(h, specs, minLevel)|)
    ensures forall k :: 0 <= k < |specs| ==> Ranges(h, specs, minLevel)[k].uuid == specs[k].uuid
    decreases specs
  {
    if specs != [] {
      var n := |SvcEntries(h, specs[0], minLevel)|;
      RangesTile(h + n, specs[1..], minLevel);
      assert Ranges(h, specs, minLevel)[1..] == Ranges(h + n, specs[1..], minLevel);
    }
  }

  lemma {:induction false} TilesBounds(rs: seq<Range>, h: nat, top: nat, k: nat)
    requires Tiles(rs, h, top) && k < |rs|
    ensures h <= rs[k].start <= rs[k].end < top
    ensures k > 0 ==> rs[k].start > h
    ensures k + 1 < |rs| ==> rs[k + 1].start == rs[k].end + 1
    ensures k + 1 == |rs| ==> rs[k].end + 1 == top
    ensures Tiles(rs[k..], rs[k].start, top)
  {
    if k == 0 {
      assert rs[0..] == rs;
    } else {
      TilesBounds(rs[1..], rs[0].end + 1, top, k - 1);
      assert rs[1..][k - 1..] == rs[k..];
    }
  }

  /** The declarations of the database are exactly the starts of the ranges. */
  lemma {:induction false} RangesOpen(h: nat, specs: seq<SvcSpec>, minLevel: nat)
    ensures Opens(Build(h, specs, minLevel), Ranges(h, specs, minLevel), h)
    decreases specs
  {
    hide Secure, CharsEntries, CharEntries;
    if specs != [] {
      var first := SvcEntries(h, specs[0], minLevel);
      var n := |first|;
      var more, rest := Build(h + n, specs[1..], minLevel), Ranges(h + n, specs[1..], minLevel);
      var db, rs := Build(h, specs, minLevel), Ranges(h, specs, minLevel);
      CharsHoldNoService(h + 1, specs[0].chars, Secure(specs[0].uuid, minLevel));
      RangesTile(h + n, specs[1..], minLevel);
      RangesOpen(h + n, specs[1..], minLevel);
      forall i | 0 <= i < |db|
        ensures db[i].attr.Primary? <==> exists k :: 0 <= k < |rs| && rs[k].start == h + i && db[i].attr == Primary(rs[k].uuid)
      {
        if i == 0 {
          assert rs[0].start == h && db[0].attr == Primary(rs[0].uuid);
        } else if i < n {
          NoneStarts(rest, h + n, h + n + |more|);
          assert forall k :: 0 < k < |rs| ==> rs[k] == rest[k - 1];
        } else {
          assert db[i] == more[i - n];
          OpensLater(more[i - n].attr, rs, rest, h + i);
        }
      }
    }
  }

  lemma NoneStarts(rs: seq<Range>, h: nat, top: nat)
    requires Tiles(rs, h, top)
    ensures forall k :: 0 <= k < |rs| ==> rs[k].start >= h
  {
    forall k | 0 <= k < |rs| ensures rs[k].start >= h {
      TilesBounds(rs, h, top, k);
    }
  }

  lemma OpensLater(attr: Attr, rs: seq<Range>, rest: seq<Range>, x: nat)
    requires rs != [] && rs[1..] == rest && rs[0].start < x
    ensures (exists k :: 0 <= k < |rs| && rs[k].start == x && attr == Primary(rs[k].uuid))
       <==> exists k :: 0 <= k < |rest| && rest[k].start == x && attr == Primary(rest[k].uuid)
  {
    if k :| 0 <= k < |rest| && rest[k].start == x && attr == Primary(rest[k].uuid) {
      assert rs[k + 1] == rest[k];
    }
    if k :| 0 <= k < |rs| && rs[k].start == x && attr == Primary(rs[k].uuid) {
      assert rest[k - 1] == rs[k];
    }
  }

  // ---------------------------------------------------------------------- discovery

  /** The entries of a Read By Group Type reply: the services that start in the range and
      have the UUID width of the first that does (each, once it is known). */
  function Group(rs: seq<Range>, start: nat, end: nat, each: nat): seq<Range> {
    if rs == [] then []
    else if rs[0].start < start || rs[0].start > end then Group(rs[1..], start, end, each)
    else if each == 0 || Width(rs[0].uuid) == each then [rs[0]] + Group(rs[1..], start, end, Width(rs[0].uuid))
    else Group(rs[1..], start, end, each)
  }

  lemma GroupStep(rs: seq<Range>, i: nat, start: nat, end: nat, each: nat)
    requires i < |rs|
    ensures var s := rs[i]; var w := Width(s.uuid);
      Group(rs[i..], start, end, each)
      == if s.start < start || s.start > end then Group(rs[i + 1..], start, end, each)
         else if each == 0 || w == each then [s] + Group(rs[i + 1..], start, end, w)
         else Group(rs[i + 1..], start, end, each)
  {
    assert rs[i..][1..] == rs[i + 1..];
  }

  method ReadByGroup(rs: seq<Range>, start: nat, end: nat) returns (entries: seq<Range>, each: nat)
    ensures entries == Group(rs, start, end, 0)
    ensures forall r :: r in entries ==> Width(r.uuid) == each
  {
    entries, each := [], 0;
    var i := 0;
    assert rs[0..] == rs;
    while i < |rs|
      invariant i <= |rs|
      invariant each == 0 ==> entries == []
      invariant forall k :: 0 <= k < |entries| ==> Width(entries[k].uuid) == each
      invariant Group(rs, start, end, 0) == entries + Group(rs[i..], start, end, each)
    {
      var s := rs[i];
      GroupStep(rs, i, start, end, each);
      if !(s.start < start || s.start > end) {
        if each == 0 { each := Width(s.uuid); }
        if Width(s.uuid) == each { entries := entries + [s]; }
      }
      i := i + 1;
    }
    assert rs[i..] == [];
  }

  function Same(rs: seq<Range>, w: nat): seq<Range> {
    if rs == [] then [] else (if Width(rs[0].uuid) == w then [rs[0]] else []) + Same(rs[1..], w)
  }

  /** The services that start within the range asked for. */
  function Starting(rs: seq<Range>, start: nat, end: nat): seq<Range> {
    if rs == [] then [] else (if start <= rs[0].start <= end then [rs[0]] else []) + Starting(rs[1..], start, end)
  }

  lemma {:induction false} GroupOfWidth(rs: seq<Range>, start: nat, end: nat, each: nat)
    requires each > 0
    ensures Group(rs, start, end, each) == Same(Starting(rs, start, end), each)
  {
    if rs != [] {
      GroupOfWidth(rs[1..], start, end, each);
      SameConcat(if start <= rs[0].start <= end then [rs[0]] else [], Starting(rs[1..], start, end), each);
    }
  }

  lemma SameConcat(x: seq<Range>, y: seq<Range>, w: nat)
    requires |x| <= 1
    ensures Same(x + y, w) == (if x != [] && Width(x[0].uuid) == w then x else []) + Same(y, w)
  {
    if x == [] {
      assert x + y == y;
    } else {
      assert (x + y)[1..] == y && x == [x[0]];
    }
  }

  /** The reply to any request: of the services that start in its range, in order, those with
      a UUID as long as the first one's. */
  lemma {:induction false} GroupIsFilter(rs: seq<Range>, start: nat, end: nat)
    ensures var there := Starting(rs, start, end);
      Group(rs, start, end, 0) == if there == [] then [] else Same(there, Width(there[0].uuid))
  {
    if rs != [] {
      if start <= rs[0].start <= end {
        GroupOfWidth(rs[1..], start, end, Width(rs[0].uuid));
        SameConcat([rs[0]], Starting(rs[1..], start, end), Width(rs[0].uuid));
      } else {
        GroupIsFilter(rs[1..], start, end);
        assert [] + Starting(rs[1..], start, end) == Starting(rs[1..], start, end);
      }
    }
  }

  lemma {:induction false} GroupIsSame(rs: seq<Range>, start: nat, h: nat, top: nat, each: nat)
    requires Tiles(rs, h, top) && start <= h && top <= MAX_HANDLE + 1 && each > 0
    ensures Group(rs, start, MAX_HANDLE, each) == Same(rs, each)
  {
    if rs != [] {
      GroupIsSame(rs[1..], start, rs[0].end + 1, top, each);
    }
  }

  lemma {:induction false} GroupSkips(rs: seq<Range>, k: nat, h: nat, top: nat)
    requires Tiles(rs, h, top) && k < |rs|
    ensures Group(rs, rs[k].start, MAX_HANDLE, 0) == Group(rs[k..], rs[k].start, MAX_HANDLE, 0)
  {
    if k == 0 {
      assert rs[0..] == rs;
    } else {
      TilesBounds(rs, h, top, k);
      GroupSkips(rs[1..], k - 1, rs[0].end + 1, top);
      assert rs[1..][k - 1..] == rs[k..];
    }
  }

  lemma {:induction false} GroupEmpty(rs: seq<Range>, start: nat, h: nat, top: nat)
    requires Tiles(rs, h, top) && start >= top
    ensures Group(rs, start, MAX_HANDLE, 0) == []
  {
    if rs != [] {
      GroupEmpty(rs[1..], start, rs[0].end + 1, top);
    }
  }

  /** The reply to a request from where service k starts: the services from k on that have
      its UUID width. */
  lemma GroupFrom(rs: seq<Range>, k: nat, h: nat, top: nat)
    requires Tiles(rs, h, top) && top <= MAX_HANDLE + 1 && k < |rs|
    ensures Group(rs, rs[k].start, MAX_HANDLE, 0) == Same(rs[k..], Width(rs[k].uuid))
  {
    TilesBounds(rs, h, top, k);
    GroupSkips(rs, k, h, top);
    GroupIsSame(rs[k..][1..], rs[k].start, rs[k].end + 1, top, Width(rs[k].uuid));
  }

  /** Where the last service of a width stands. */
  function LastSame(rs: seq<Range>, w: nat): (j: nat)
    requires rs != [] && Width(rs[0].uuid) == w
    ensures j < |rs| && Width(rs[j].uuid) == w
    ensures forall i :: j < i < |rs| ==> Width(rs[i].uuid) != w
  {
    if Width(rs[|rs| - 1].uuid) == w then |rs| - 1
    else
      assert |rs| > 1;
      var j := LastSame(rs[..|rs| - 1], w);
      assert rs[..|rs| - 1][j] == rs[j];
      j
  }

  lemma {:induction false} SameUpTo(rs: seq<Range>, w: nat, j: nat)
    requires j < |rs| && Width(rs[j].uuid) == w && forall i :: j < i < |rs| ==> Width(rs[i].uuid) != w
    ensures Same(rs, w) != [] && Same(rs, w)[|Same(rs, w)| - 1] == rs[j]
    ensures |Same(rs, w)| <= j + 1
    ensures Same(rs, w) == rs[..j + 1] <==> forall i :: 0 <= i <= j ==> Width(rs[i].uuid) == w
    ensures (exists i :: 0 <= i <= j && Width(rs[i].uuid) != w) ==> |Same(rs, w)| <= j
  {
    if j == 0 {
      NoneSame(rs[1..], w);
      assert Same(rs, w) == [rs[0]] + [];
      assert rs[..1] == [rs[0]];
    } else {
      var rest := rs[1..];
      SameUpTo(rest, w, j - 1);
      assert rs[..j + 1] == [rs[0]] + rest[..j];
      if Width(rs[0].uuid) == w {
        assert Same(rs, w) == [rs[0]] + Same(rest, w);
        if Same(rs, w) == rs[..j + 1] {
          assert Same(rest, w) == rs[..j + 1][1..];
        }
        forall i | 0 <= i <= j && Width(rs[i].uuid) != w ensures |Same(rs, w)| <= j {
          assert rest[i - 1] == rs[i];
        }
      } else {
        assert Same(rs, w) == Same(rest, w);
      }
    }
  }

  lemma {:induction false} NoneSame(rs: seq<Range>, w: nat)
    requires forall i :: 0 <= i < |rs| ==> Width(rs[i].uuid) != w
    ensures Same(rs, w) == []
  {
    if rs != [] {
      NoneSame(rs[1..], w);
    }
  }

  lemma {:induction false} GroupAhead(rs: seq<Range>, start: nat, each: nat)
    requires forall i :: 0 <= i < |rs| ==> rs[i].start <= rs[i].end
    ensures forall r :: r in Group(rs, start, MAX_HANDLE, each) ==> start <= r.start <= r.end && r in rs
  {
    if rs != [] {
      GroupAhead(rs[1..], start, each);
      GroupAhead(rs[1..], start, Width(rs[0].uuid));
    }
  }

  predicate Forward(rs: seq<Range>) {
    forall i :: 0 <= i < |rs| ==> rs[i].start <= rs[i].end
  }

  lemma {:induction false} TilesForward(rs: seq<Range>, h: nat, top: nat)
    requires Tiles(rs, h, top)
    ensures Forward(rs)
  {
    if rs != [] {
      TilesForward(rs[1..], rs[0].end + 1, top);
      forall i | 0 <= i < |rs| ensures rs[i].start <= rs[i].end {
        if i > 0 { assert rs[i] == rs[1..][i - 1]; }
      }
    }
  }

  /** A client's primary service discovery: ask from start on, go on after the end of the
      last service told, stop at the first error or at the last handle. It always stops. */
  function Discover(rs: seq<Range>, start: nat): seq<Range>
    requires Forward(rs)
    decreases MAX_HANDLE + 1 - start
  {
    if start > MAX_HANDLE then []
    else
      var told := Group(rs, start, MAX_HANDLE, 0);
      if told == [] then []
      else
        GroupAhead(rs, start, 0);
        assert told[|told| - 1] in told;
        told + Discover(rs, told[|told| - 1].end + 1)
  }

  /** One request: the reply holds the services of k's width from k on, and the next request
      starts after the last of these. */
  lemma DiscoverRound(rs: seq<Range>, k: nat, h: nat, top: nat) returns (j: nat)
    requires Tiles(rs, h, top) && top <= MAX_HANDLE + 1 && k < |rs| && Forward(rs)
    ensures k <= j < |rs| && Width(rs[j].uuid) == Width(rs[k].uuid)
    ensures forall i :: j < i < |rs| ==> Width(rs[i].uuid) != Width(rs[k].uuid)
    ensures Discover(rs, rs[k].start)
         == Same(rs[k..], Width(rs[k].uuid)) + (if j + 1 < |rs| then Discover(rs, rs[j + 1].start) else [])
  {
    hide Same, Tiles, Discover, Group;
    var w := Width(rs[k].uuid);
    var tail := rs[k..];
    var i := LastSame(tail, w);
    j := k + i;
    SameUpTo(tail, w, i);
    GroupFrom(rs, k, h, top);
    TilesBounds(rs, h, top, k);
    TilesBounds(rs, h, top, j);
    forall m | j < m < |rs| ensures Width(rs[m].uuid) != w {
      assert tail[m - k] == rs[m];
    }
    DiscoverNext(rs, rs[k].start, Same(tail, w));
    if j + 1 == |rs| {
      DiscoverEnd(rs, h, top);
    }
  }

  /** One request and what comes after it. */
  lemma DiscoverNext(rs: seq<Range>, start: nat, told: seq<Range>)
    requires Forward(rs) && start <= MAX_HANDLE && told == Group(rs, start, MAX_HANDLE, 0) && told != []
    ensures Discover(rs, start) == told + Discover(rs, told[|told| - 1].end + 1)
  {
  }

  lemma DiscoverEnd(rs: seq<Range>, h: nat, top: nat)
    requires Tiles(rs, h, top) && Forward(rs)
    ensures Discover(rs, top) == []
  {
    GroupEmpty(rs, top, h, top);
  }

  /** The services are told by width: none of another width stands before the last service
      that has the width of the first. */
  predicate Grouped(rs: seq<Range>) {
    forall i, j :: 0 <= i < j < |rs| && Width(rs[j].uuid) == Width(rs[0].uuid) ==> Width(rs[i].uuid) == Width(rs[0].uuid)
  }

  lemma {:induction false} DiscoverShort(rs: seq<Range>, k: nat, h: nat, top: nat)
    requires Tiles(rs, h, top) && top <= MAX_HANDLE + 1 && k < |rs| && Forward(rs)
    ensures |Discover(rs, rs[k].start)| <= |rs| - k
    decreases |rs| - k
  {
    var j := DiscoverRound(rs, k, h, top);
    SameTail(rs, k, j);
    if j + 1 < |rs| {
      DiscoverShort(rs, j + 1, h, top);
    }
  }

  lemma SameTail(rs: seq<Range>, k: nat, j: nat)
    requires k <= j < |rs| && Width(rs[j].uuid) == Width(rs[k].uuid)
    requires forall i :: j < i < |rs| ==> Width(rs[i].uuid) != Width(rs[k].uuid)
    ensures var same := Same(rs[k..], Width(rs[k].uuid));
      && |same| <= j + 1 - k
      && ((exists i :: k <= i <= j && Width(rs[i].uuid) != Width(rs[k].uuid)) ==> |same| <= j - k)
      && ((forall i :: k <= i <= j ==> Width(rs[i].uuid) == Width(rs[k].uuid)) ==> same == rs[k..j + 1])
  {
    var w := Width(rs[k].uuid);
    SameUpTo(rs[k..], w, j - k);
    assert rs[k..][..j - k + 1] == rs[k..j + 1];
    forall i | k <= i <= j && Width(rs[i].uuid) != w ensures |Same(rs[k..], w)| <= j - k {
      assert rs[k..][i - k] == rs[i];
    }
  }

  /** With a single width from k on, the client is told every service from k on at once. */
  lemma DiscoverUniform(rs: seq<Range>, k: nat, h: nat, top: nat)
    requires Tiles(rs, h, top) && top <= MAX_HANDLE + 1 && k < |rs| && Forward(rs)
    requires forall i :: k <= i < |rs| ==> Width(rs[i].uuid) == Width(rs[k].uuid)
    ensures Discover(rs, rs[k].start) == rs[k..]
  {
    var j := DiscoverRound(rs, k, h, top);
    SameTail(rs, k, j);
    assert j == |rs| - 1;
    assert rs[k..j + 1] == rs[k..];
  }

  /** Discovery always stops; it tells every service exactly once, in order, if and only if
      the services are told by width. In particular it does so with a single UUID width. */
  lemma DiscoveryCompleteIff(specs: seq<SvcSpec>, minLevel: nat)
    requires |Build(1, specs, minLevel)| <= MAX_HANDLE
    ensures var rs := Ranges(1, specs, minLevel);
      Forward(rs) && (Discover(rs, 1) == rs <==> Grouped(rs))
  {
    var rs := Ranges(1, specs, minLevel);
    var top := 1 + |Build(1, specs, minLevel)|;
    RangesTile(1, specs, minLevel);
    TilesForward(rs, 1, top);
    if rs != [] {
      TilesBounds(rs, 1, top, 0);
      var j := DiscoverRound(rs, 0, 1, top);
      assert rs[0..] == rs;
      SameTail(rs, 0, j);
      if Grouped(rs) {
        GroupedComplete(rs, j, 1, top);
      } else {
        var i, m :| 0 <= i < m < |rs| && Width(rs[m].uuid) == Width(rs[0].uuid) && Width(rs[i].uuid) != Width(rs[0].uuid);
        assert i <= j;
        if j + 1 < |rs| { DiscoverShort(rs, j + 1, 1, top); }
      }
    }
  }

  lemma GroupedComplete(rs: seq<Range>, j: nat, h: nat, top: nat)
    requires Tiles(rs, h, top) && top <= MAX_HANDLE + 1 && j < |rs| && Forward(rs) && Grouped(rs)
    requires Width(rs[j].uuid) == Width(rs[0].uuid)
    requires forall i :: j < i < |rs| ==> Width(rs[i].uuid) != Width(rs[0].uuid)
    ensures Same(rs, Width(rs[0].uuid)) + (if j + 1 < |rs| then Discover(rs, rs[j + 1].start) else []) == rs
  {
    hide Discover, Same, Tiles, Group;
    SameTail(rs, 0, j);
    assert rs[0..] == rs;
    assert rs == rs[..j + 1] + rs[j + 1..];
    assert rs[0..j + 1] == rs[..j + 1];
    if j + 1 < |rs| {
      DiscoverUniform(rs, j + 1, h, top);
    }
  }

  lemma {:induction false} BareSize(h: nat, specs: seq<SvcSpec>, minLevel: nat)
    requires forall i :: 0 <= i < |specs| ==> specs[i].chars == []
    ensures |Build(h, specs, minLevel)| == |specs|
    decreases specs
  {
    if specs != [] {
      BareSize(h + 1, specs[1..], minLevel);
    }
  }

  /** Battery, a vendor service, device information: the client is never told of the
      vendor service, which stands between two services of 16-bit UUIDs. */
  lemma MixedWidthsMiss(vendor: seq<Byte>)
    ensures var rs := Ranges(1, [SvcSpec(Short(0x180F), []), SvcSpec(Long(vendor), []), SvcSpec(Short(0x180A), [])], 1);
      |rs| == 3 && Forward(rs) && Discover(rs, 1) == [rs[0], rs[2]]
  {
    var specs := [SvcSpec(Short(0x180F), []), SvcSpec(Long(vendor), []), SvcSpec(Short(0x180A), [])];
    var rs := Ranges(1, specs, 1);
    RangesTile(1, specs, 1);
    BareSize(1, specs, 1);
    TilesForward(rs, 1, 1 + |Build(1, specs, 1)|);
    SecondMissed(rs, 1 + |Build(1, specs, 1)|);
  }

  lemma SecondMissed(rs: seq<Range>, top: nat)
    requires |rs| == 3 && Tiles(rs, 1, top) && top <= MAX_HANDLE + 1 && Forward(rs)
    requires Width(rs[0].uuid) == Width(rs[2].uuid) != Width(rs[1].uuid)
    ensures Discover(rs, 1) == [rs[0], rs[2]]
  {
    hide Discover, Group;
    var w := Width(rs[0].uuid);
    var j := DiscoverRound(rs, 0, 1, top);
    assert j == 2;
    assert rs[0..] == rs && rs == [rs[0], rs[1], rs[2]];
    assert rs[1..][1..] == [rs[2]] && rs[1..][1..][1..] == [];
    assert Same(rs[1..][1..], w) == [rs[2]];
    assert Same(rs[1..], w) == [rs[2]];
  }
}
