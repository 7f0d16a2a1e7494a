/** Advertising data: packing AD structures (section 11 of Vol 3 Part C of the Bluetooth
    Core Specification) into an advertisement and a scan response of 31 octets each, and
    the walk that takes them apart again. */
module AdData {
  import opened Wire

  const BUDGET: nat := 31

  /** One AD structure. Its length octet counts the type and the data. */
  datatype Ad = Ad(kind: Byte, data: seq<Byte>)

  predicate Encodable(a: Ad) {
    |a.data| <= 254
  }

  function Encode(a: Ad): (r: seq<Byte>)
    requires Encodable(a)
    ensures |r| == |a.data| + 2 && r[0] as int == |r| - 1 && r[1] == a.kind && r[2..] == a.data
  {
    [|a.data| + 1, a.kind] + a.data
  }

  predicate AllEncodable(ads: seq<Ad>) {
    forall i :: 0 <= i < |ads| ==> Encodable(ads[i])
  }

  function EncodeAll(ads: seq<Ad>): seq<Byte>
    requires AllEncodable(ads)
  {
    if ads == [] then [] else Encode(ads[0]) + EncodeAll(ads[1..])
  }

  // ------------------------------------------------------------------- parsing

  /** A whole structure starts here. */
  predicate Whole(b: seq<Byte>) {
    |b| >= 2 && b[0] != 0 && 1 + b[0] <= |b|
  }

  function Head(b: seq<Byte>): (a: Ad)
    requires Whole(b)
    ensures Encodable(a)
  {
    var ln: nat := b[0];
    Ad(b[1], b[2..1 + ln])
  }

  function Tail(b: seq<Byte>): (r: seq<Byte>)
    requires Whole(b)
    ensures |r| < |b|
  {
    var ln: nat := b[0];
    b[1 + ln..]
  }

  function Parse(b: seq<Byte>): (r: seq<Ad>)
    ensures AllEncodable(r)
    decreases |b|
  {
    if !Whole(b) then [] else [Head(b)] + Parse(Tail(b))
  }

  /** What the walk leaves unread. */
  function Unread(b: seq<Byte>): (r: seq<Byte>)
    decreases |b|
  {
    if !Whole(b) then b else Unread(Tail(b))
  }

  lemma WalkStep(b: seq<Byte>, i: nat, ln: nat)
    requires i + 1 < |b| && b[i] == ln
    ensures Whole(b[i..]) <==> ln != 0 && i + 1 + ln <= |b|
    ensures ln != 0 && i + 1 + ln <= |b| ==>
      Head(b[i..]) == Ad(b[i + 1], b[i + 2..i + 1 + ln]) && Tail(b[i..]) == b[i + 1 + ln..]
  {
    if ln != 0 && i + 1 + ln <= |b| {
      assert b[i..][2..1 + ln] == b[i + 2..i + 1 + ln];
      assert b[i..][1 + ln..] == b[i + 1 + ln..];
    }
  }

  lemma WalkNext(b: seq<Byte>, i: nat, ln: nat, out: seq<Ad>)
    requires i + 1 < |b| && b[i] == ln && ln != 0 && i + 1 + ln <= |b|
    ensures out + Parse(b[i..]) == (out + [Ad(b[i + 1], b[i + 2..i + 1 + ln])]) + Parse(b[i + 1 + ln..])
  {
    WalkStep(b, i, ln);
    Assoc(out, [Head(b[i..])], Parse(Tail(b[i..])));
  }

  method ParseAdvData(b: seq<Byte>) returns (out: seq<Ad>)
    ensures out == Parse(b)
  {
    out := [];
    var i := 0;
    assert b[0..] == b;
    while i + 1 < |b|
      invariant i <= |b|
      invariant Parse(b) == out + Parse(b[i..])
    {
      var ln: nat := b[i];
      if ln == 0 || i + 1 + ln > |b| { break; }
      WalkNext(b, i, ln, out);
      out := out + [Ad(b[i + 1], b[i + 2..i + 1 + ln])];
      i := i + 1 + ln;
    }
    assert !Whole(b[i..]);
  }

  lemma EncodedStarts(a: Ad, rest: seq<Byte>)
    requires Encodable(a)
    ensures Whole(Encode(a) + rest) && Head(Encode(a) + rest) == a && Tail(Encode(a) + rest) == rest
  {
    var b := Encode(a) + rest;
    assert b[2..2 + |a.data|] == a.data;
    assert b[2 + |a.data|..] == rest;
  }

  /** Encoded structures parse back to themselves, whatever follows them. */
  lemma {:induction false} ParseEncoded(ads: seq<Ad>, rest: seq<Byte>)
    requires AllEncodable(ads)
    ensures Parse(EncodeAll(ads) + rest) == ads + Parse(rest)
  {
    hide Parse, Encode;
    if ads == [] {
      assert EncodeAll(ads) + rest == rest;
    } else {
      var more := EncodeAll(ads[1..]);
      ParseEncoded(ads[1..], rest);
      ParseCons(ads[0], more + rest);
      Assoc(Encode(ads[0]), more, rest);
      assert [ads[0]] + (ads[1..] + Parse(rest)) == ads + Parse(rest);
    }
  }

  lemma ParseCons(a: Ad, rest: seq<Byte>)
    requires Encodable(a)
    ensures Parse(Encode(a) + rest) == [a] + Parse(rest)
  {
    EncodedStarts(a, rest);
  }

  lemma HeadTail(b: seq<Byte>)
    requires Whole(b)
    ensures b == Encode(Head(b)) + Tail(b)
  {
  }

  /** The walk reads off the longest run of whole structures that the octets start with:
      they are an encoding of what it returns, followed by no further whole structure. */
  lemma {:induction false} ParseReadsPrefix(b: seq<Byte>)
    ensures b == EncodeAll(Parse(b)) + Unread(b) && !Whole(Unread(b))
    decreases |b|
  {
    if Whole(b) {
      ParseReadsPrefix(Tail(b));
      assert Parse(b)[1..] == Parse(Tail(b));
      HeadTail(b);
      Assoc(Encode(Head(b)), EncodeAll(Parse(Tail(b))), Unread(b));
    }
  }

  // ------------------------------------------------------------------- packing

  /** Where an extra structure ends up. */
  datatype Place = Adv | Rsp | Lost

  function Fits(packed: seq<Byte>, a: seq<Byte>): bool {
    |packed| + |a| <= BUDGET
  }

  /** The primary structures kept: each that still fits. */
  function Primary(ads: seq<Ad>): (r: seq<Ad>)
    requires AllEncodable(ads)
    ensures AllEncodable(r)
  {
    if ads == [] then []
    else
      var was, a := ads[..|ads| - 1], ads[|ads| - 1];
      var kept := Primary(was);
      if Fits(EncodeAll(kept), Encode(a)) then kept + [a] else kept
  }

  /** Those of the structures that have the given place, in order. */
  function At(ads: seq<Ad>, places: seq<Place>, p: Place): (r: seq<Ad>)
    requires |ads| == |places|
    ensures AllEncodable(ads) ==> AllEncodable(r)
  {
    if ads == [] then []
    else
      var n := |ads| - 1;
      At(ads[..n], places[..n], p) + (if places[n] == p then [ads[n]] else [])
  }

  /** The first place with room: the advertisement, then (of a scannable device) the scan
      response, then none. */
  function Choice(adv: seq<Byte>, rsp: seq<Byte>, a: seq<Byte>, scannable: bool): Place {
    if Fits(adv, a) then Adv else if scannable && Fits(rsp, a) then Rsp else Lost
  }

  function AdvOf(kept: seq<Ad>, extra: seq<Ad>, places: seq<Place>): seq<Byte>
    requires |extra| == |places| && AllEncodable(kept) && AllEncodable(extra)
  {
    EncodeAll(kept + At(extra, places, Adv))
  }

  function RspOf(extra: seq<Ad>, places: seq<Place>): seq<Byte>
    requires |extra| == |places| && AllEncodable(extra)
  {
    EncodeAll(At(extra, places, Rsp))
  }

  /** Where each extra structure goes, given the primary ones kept. */
  function Places(kept: seq<Ad>, extra: seq<Ad>, scannable: bool): (r: seq<Place>)
    requires AllEncodable(kept) && AllEncodable(extra)
    ensures |r| == |extra|
  {
    if extra == [] then []
    else
      var was, a := extra[..|extra| - 1], extra[|extra| - 1];
      var r := Places(kept, was, scannable);
      r + [Choice(AdvOf(kept, was, r), RspOf(was, r), Encode(a), scannable)]
  }

  lemma {:induction false} EncodeAppend(ads: seq<Ad>, a: Ad)
    requires AllEncodable(ads) && Encodable(a)
    ensures EncodeAll(ads + [a]) == EncodeAll(ads) + Encode(a)
  {
    if ads == [] {
      assert ads + [a] == [a];
      assert EncodeAll([a]) == Encode(a) + EncodeAll([]);
    } else {
      EncodeAppend(ads[1..], a);
      assert (ads + [a])[1..] == ads[1..] + [a] && (ads + [a])[0] == ads[0];
      Assoc(Encode(ads[0]), EncodeAll(ads[1..]), Encode(a));
    }
  }

  lemma AtSnoc(ads: seq<Ad>, places: seq<Place>, a: Ad, q: Place, p: Place)
    requires |ads| == |places|
    ensures At(ads + [a], places + [q], p) == At(ads, places, p) + (if q == p then [a] else [])
  {
    assert (ads + [a])[..|ads|] == ads && (places + [q])[..|ads|] == places;
  }

  /** What one more extra structure adds to the advertisement and the scan response. */
  lemma PlaceNext(kept: seq<Ad>, extra: seq<Ad>, places: seq<Place>, a: Ad, q: Place)
    requires |extra| == |places| && AllEncodable(kept) && AllEncodable(extra) && Encodable(a)
    ensures AdvOf(kept, extra + [a], places + [q]) == AdvOf(kept, extra, places) + (if q == Adv then Encode(a) else [])
    ensures RspOf(extra + [a], places + [q]) == RspOf(extra, places) + (if q == Rsp then Encode(a) else [])
    ensures |At(extra + [a], places + [q], Lost)| == |At(extra, places, Lost)| + (if q == Lost then 1 else 0)
  {
    AtSnoc(extra, places, a, q, Adv);
    AtSnoc(extra, places, a, q, Rsp);
    AtSnoc(extra, places, a, q, Lost);
    var adv := At(extra, places, Adv);
    if q == Adv {
      EncodeAppend(kept + adv, a);
      assert kept + (adv + [a]) == (kept + adv) + [a];
    } else {
      assert adv + [] == adv;
    }
    var rsp := At(extra, places, Rsp);
    if q == Rsp {
      EncodeAppend(rsp, a);
    } else {
      assert rsp + [] == rsp;
    }
  }

  /** What the loop over the extra structures has built so far. */
  ghost predicate Packing(kept: seq<Ad>, extra: seq<Ad>, scannable: bool, adv: seq<Byte>, rsp: seq<Byte>, dropped: nat) {
    && AllEncodable(kept) && AllEncodable(extra)
    && var places := Places(kept, extra, scannable);
    && adv == AdvOf(kept, extra, places) && rsp == RspOf(extra, places) && dropped == |At(extra, places, Lost)|
    && |adv| <= BUDGET && |rsp| <= BUDGET
  }

  lemma PackingNext(kept: seq<Ad>, extra: seq<Ad>, scannable: bool, adv: seq<Byte>, rsp: seq<Byte>, dropped: nat, a: Ad)
    requires Packing(kept, extra, scannable, adv, rsp, dropped) && Encodable(a)
    ensures var q := Choice(adv, rsp, Encode(a), scannable);
      && (q == Adv ==> Packing(kept, extra + [a], scannable, adv + Encode(a), rsp, dropped))
      && (q == Rsp ==> Packing(kept, extra + [a], scannable, adv, rsp + Encode(a), dropped))
      && (q == Lost ==> Packing(kept, extra + [a], scannable, adv, rsp, dropped + 1))
  {
    var places := Places(kept, extra, scannable);
    var q := Choice(adv, rsp, Encode(a), scannable);
    PlaceNext(kept, extra, places, a, q);
    assert (extra + [a])[..|extra|] == extra;
    assert Places(kept, extra + [a], scannable) == places + [q];
    assert adv + [] == adv && rsp + [] == rsp;
  }

  function Encodings(ads: seq<Ad>): (r: seq<seq<Byte>>)
    requires AllEncodable(ads)
    ensures |r| == |ads| && forall i :: 0 <= i < |ads| ==> r[i] == Encode(ads[i])
  {
    seq(|ads|, i requires 0 <= i < |ads| => Encode(ads[i]))
  }

  /** The advertisement's first part: every primary structure that still fits. */
  method PackPrimary(primary: seq<seq<Byte>>, ghost ads: seq<Ad>) returns (adv: seq<Byte>)
    requires AllEncodable(ads) && primary == Encodings(ads)
    ensures adv == EncodeAll(Primary(ads)) && |adv| <= BUDGET
  {
    adv := [];
    for i := 0 to |primary|
      invariant adv == EncodeAll(Primary(ads[..i])) && |adv| <= BUDGET
    {
      assert ads[..i + 1][..i] == ads[..i];
      if |adv| + |primary[i]| <= BUDGET {
        EncodeAppend(Primary(ads[..i]), ads[i]);
        adv := adv + primary[i];
      }
    }
    assert ads[..|ads|] == ads;
  }

  /** pack_ads, on the encodings of any AD structures. */
  method PackAds(primary: seq<seq<Byte>>, extra: seq<seq<Byte>>, scannable: bool,
                 ghost primaryAds: seq<Ad>, ghost extraAds: seq<Ad>)
    returns (adv: seq<Byte>, rsp: seq<Byte>, dropped: nat)
    requires AllEncodable(primaryAds) && primary == Encodings(primaryAds)
    requires AllEncodable(extraAds) && extra == Encodings(extraAds)
    ensures Packing(Primary(primaryAds), extraAds, scannable, adv, rsp, dropped)
  {
    hide Packing, Encode, EncodeAll;
    ghost var kept := Primary(primaryAds);
    adv := PackPrimary(primary, primaryAds);
    rsp, dropped := [], 0;
    PackingStarts(kept, scannable);
    for i := 0 to |extra|
      invariant Packing(kept, extraAds[..i], scannable, adv, rsp, dropped)
    {
      adv, rsp, dropped := PlaceOne(extra[i], scannable, adv, rsp, dropped, kept, extraAds[..i], extraAds[i]);
      assert extraAds[..i + 1] == extraAds[..i] + [extraAds[i]];
    }
    assert extraAds[..|extraAds|] == extraAds;
  }

  /** Places one extra structure. */
  method PlaceOne(e: seq<Byte>, scannable: bool, adv0: seq<Byte>, rsp0: seq<Byte>, dropped0: nat,
                ghost kept: seq<Ad>, ghost before: seq<Ad>, ghost a: Ad)
    returns (adv: seq<Byte>, rsp: seq<Byte>, dropped: nat)
    requires Packing(kept, before, scannable, adv0, rsp0, dropped0) && Encodable(a) && e == Encode(a)
    ensures Packing(kept, before + [a], scannable, adv, rsp, dropped)
  {
    adv, rsp, dropped := adv0, rsp0, dropped0;
    PackingNext(kept, before, scannable, adv, rsp, dropped, a);
    if |adv| + |e| <= BUDGET {
      adv := adv + e;
    } else if scannable && |rsp| + |e| <= BUDGET {
      rsp := rsp + e;
    } else {
      dropped := dropped + 1;
    }
  }

  lemma PackingStarts(kept: seq<Ad>, scannable: bool)
    requires AllEncodable(kept) && |EncodeAll(kept)| <= BUDGET
    ensures Packing(kept, [], scannable, EncodeAll(kept), [], 0)
  {
    assert kept + [] == kept;
  }

  // -------------------------------------------------------- what the packing means

  /** The two packets hold exactly the structures kept and placed there, in order, and no
      octet more: parsing gives them back. */
  lemma PackedParsesBack(primary: seq<Ad>, extra: seq<Ad>, scannable: bool)
    requires AllEncodable(primary) && AllEncodable(extra)
    ensures var kept := Primary(primary); var places := Places(kept, extra, scannable);
      && Parse(AdvOf(kept, extra, places)) == kept + At(extra, places, Adv)
      && Parse(RspOf(extra, places)) == At(extra, places, Rsp)
  {
    var kept := Primary(primary);
    var places := Places(kept, extra, scannable);
    var adv := kept + At(extra, places, Adv);
    var rsp := At(extra, places, Rsp);
    ParseEncoded(adv, []);
    ParseEncoded(rsp, []);
    assert EncodeAll(adv) + [] == EncodeAll(adv) && EncodeAll(rsp) + [] == EncodeAll(rsp);
  }

  predicate Partitioned(extra: seq<Ad>, places: seq<Place>)
    requires |extra| == |places|
  {
    multiset(extra)
    == multiset(At(extra, places, Adv)) + multiset(At(extra, places, Rsp)) + multiset(At(extra, places, Lost))
  }

  lemma PartitionSnoc(extra: seq<Ad>, places: seq<Place>, a: Ad, q: Place)
    requires |extra| == |places| && Partitioned(extra, places)
    ensures Partitioned(extra + [a], places + [q])
  {
    AtSnoc(extra, places, a, q, Adv);
    AtSnoc(extra, places, a, q, Rsp);
    AtSnoc(extra, places, a, q, Lost);
    OneMore(At(extra, places, Adv), At(extra, places, Rsp), At(extra, places, Lost), a, q);
  }

  lemma OneMore(x: seq<Ad>, y: seq<Ad>, z: seq<Ad>, a: Ad, q: Place)
    ensures multiset(x + if q == Adv then [a] else []) + multiset(y + if q == Rsp then [a] else [])
            + multiset(z + if q == Lost then [a] else [])
         == multiset(x) + multiset(y) + multiset(z) + multiset{a}
  {
    match q
    case Adv => assert y + [] == y && z + [] == z;
    case Rsp => assert x + [] == x && z + [] == z;
    case Lost => assert x + [] == x && y + [] == y;
  }

  /** Each extra structure is in exactly one of the three places. */
  lemma {:induction false} PlacesPartition(extra: seq<Ad>, places: seq<Place>)
    requires |extra| == |places|
    ensures Partitioned(extra, places)
  {
    if extra == [] {
    } else {
      hide Partitioned, At;
      var n := |extra| - 1;
      PlacesPartition(extra[..n], places[..n]);
      PartitionSnoc(extra[..n], places[..n], extra[n], places[n]);
      assert extra[..n] + [extra[n]] == extra && places[..n] + [places[n]] == places;
    }
  }

  /** What a packing does with the extra structures: each is read back from the
      advertisement, behind the primary ones, or from the scan response, or is one of those
      counted as dropped; none twice and none invented. */
  lemma ExtrasAccounted(primary: seq<Ad>, extra: seq<Ad>, scannable: bool, adv: seq<Byte>, rsp: seq<Byte>, dropped: nat)
    returns (lost: seq<Ad>)
    requires AllEncodable(primary) && AllEncodable(extra)
    requires Packing(Primary(primary), extra, scannable, adv, rsp, dropped)
    ensures Primary(primary) <= Parse(adv) && |lost| == dropped
    ensures multiset(extra) == multiset(Parse(adv)[|Primary(primary)|..]) + multiset(Parse(rsp)) + multiset(lost)
  {
    hide Places, Parse;
    var kept := Primary(primary);
    var places := Places(kept, extra, scannable);
    lost := At(extra, places, Lost);
    PackedParsesBack(primary, extra, scannable);
    PlacesPartition(extra, places);
    assert (kept + At(extra, places, Adv))[|kept|..] == At(extra, places, Adv);
  }

  /** Structure i is kept exactly when those kept before it leave the room for it. */
  predicate KeptIfRoom(ads: seq<Ad>, places: seq<Place>, i: nat)
    requires |ads| == |places| && i < |ads| && AllEncodable(ads)
  {
    places[i] == Adv <==> |EncodeAll(At(ads[..i], places[..i], Adv))| + |ads[i].data| + 2 <= 31
  }

  /** What becomes of the primary structures: those kept are kept in order, and one is left
      out exactly when the advertisement, as filled by those kept before it, has not the room. */
  lemma {:induction false} PrimaryIff(ads: seq<Ad>) returns (places: seq<Place>)
    requires AllEncodable(ads)
    ensures |places| == |ads| && Primary(ads) == At(ads, places, Adv)
    ensures forall i :: 0 <= i < |ads| ==> KeptIfRoom(ads, places, i)
  {
    hide EncodeAll, KeptIfRoom;
    if ads == [] {
      places := [];
    } else {
      hide At;
      var n := |ads| - 1;
      var before := PrimaryIff(ads[..n]);
      var q := if |EncodeAll(Primary(ads[..n]))| + |ads[n].data| + 2 <= 31 then Adv else Lost;
      places := before + [q];
      AtSnoc(ads[..n], before, ads[n], q, Adv);
      assert ads[..n] + [ads[n]] == ads;
      LastKept(ads, before, q);
      forall i | 0 <= i < n ensures KeptIfRoom(ads, places, i) {
        KeptBefore(ads, before, q, i);
      }
    }
  }

  lemma LastKept(ads: seq<Ad>, before: seq<Place>, q: Place)
    requires AllEncodable(ads) && ads != [] && |before| == |ads| - 1
    requires q == Adv <==> |EncodeAll(At(ads[..|ads| - 1], before, Adv))| + |ads[|ads| - 1].data| + 2 <= 31
    ensures KeptIfRoom(ads, before + [q], |ads| - 1)
  {
    hide At, EncodeAll;
    assert (before + [q])[..|before|] == before;
  }

  lemma KeptBefore(ads: seq<Ad>, before: seq<Place>, q: Place, i: nat)
    requires AllEncodable(ads) && |before| == |ads| - 1 && i < |before| && KeptIfRoom(ads[..|ads| - 1], before, i)
    ensures KeptIfRoom(ads, before + [q], i)
  {
    hide At, EncodeAll;
    assert ads[..|ads| - 1][..i] == ads[..i] && (before + [q])[..i] == before[..i];
  }

  lemma PlacesButLast(kept: seq<Ad>, extra: seq<Ad>, scannable: bool)
    requires AllEncodable(kept) && AllEncodable(extra) && extra != []
    ensures Places(kept, extra, scannable)[..|extra| - 1] == Places(kept, extra[..|extra| - 1], scannable)
  {
  }

  lemma {:induction false} PlacesPrefix(kept: seq<Ad>, extra: seq<Ad>, scannable: bool, i: nat)
    requires AllEncodable(kept) && AllEncodable(extra) && i <= |extra|
    ensures Places(kept, extra, scannable)[..i] == Places(kept, extra[..i], scannable)
    decreases |extra|
  {
    if i == |extra| {
      assert extra[..i] == extra;
    } else {
      var n := |extra| - 1;
      var all, most := Places(kept, extra, scannable), Places(kept, extra[..n], scannable);
      PlacesButLast(kept, extra, scannable);
      PlacesPrefix(kept, extra[..n], scannable, i);
      assert extra[..n][..i] == extra[..i];
      assert all[..i] == all[..n][..i];
    }
  }

  /** A structure is left out exactly when neither packet, as filled by those before it, has
      the room, and goes to the scan response exactly when only that has: the packer never
      drops what it could have kept. */
  lemma LostIffNoRoom(kept: seq<Ad>, extra: seq<Ad>, scannable: bool, i: nat)
    requires AllEncodable(kept) && AllEncodable(extra) && i < |extra|
    ensures var places := Places(kept, extra, scannable); var before := places[..i];
      var roomAdv := |AdvOf(kept, extra[..i], before)| + |extra[i].data| + 2 <= 31;
      var roomRsp := scannable && |RspOf(extra[..i], before)| + |extra[i].data| + 2 <= 31;
      && (places[i] == Adv <==> roomAdv)
      && (places[i] == Rsp <==> !roomAdv && roomRsp)
      && (places[i] == Lost <==> !roomAdv && !roomRsp)
  {
    PlacesPrefix(kept, extra, scannable, i);
    PlacesPrefix(kept, extra, scannable, i + 1);
    assert extra[..i + 1][..i] == extra[..i];
    assert Places(kept, extra, scannable)[i] == Places(kept, extra[..i + 1], scannable)[i];
  }
}
