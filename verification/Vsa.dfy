/** Vendor-specific attributes of a packet: the setters and the two getters
    (internal/radius/vsa.go, pfsense_vsa.go, mikrotik_vsa.go). */
module Vsa {
  import opened Domain
  import opened Tlv

  const VENDOR_SPECIFIC: byte := 26
  const PFSENSE: uint32 := 13644
  const MIKROTIK: uint32 := 14988

  datatype Avp = Avp(kind: byte, value: seq<byte>)

  /** An attribute of the packet library: a vendor id and what belongs to the vendor. The
      library refuses more than 249 bytes, and on reading less than one. */
  function NewVendorSpecific(vendor: uint32, value: seq<byte>): Option<seq<byte>> {
    if |value| > 249 then None else Some(BigEndian(vendor) + value)
  }

  /** The vendor's bytes in an attribute; none when it is another vendor's or no VSA. */
  function VendorBytes(a: Avp, vendor: uint32): seq<byte> {
    if a.kind == VENDOR_SPECIFIC && |a.value| >= 5 && FromBigEndian(a.value) == vendor then a.value[4..] else []
  }

  /** All sub-attributes of the vendor in the packet, in order. */
  function VendorSubs(attrs: seq<Avp>, vendor: uint32): seq<Sub> {
    if attrs == [] then [] else Scan(VendorBytes(attrs[0], vendor)) + VendorSubs(attrs[1..], vendor)
  }

  function Lookup(attrs: seq<Avp>, vendor: uint32, w: Want): Option<seq<byte>> { First(VendorSubs(attrs, vendor), w) }

  /** The attributes that are not vendor-specific. */
  function Others(attrs: seq<Avp>): seq<Avp> {
    if attrs == [] then []
    else
      var front, a := Others(attrs[..|attrs| - 1]), attrs[|attrs| - 1];
      if a.kind == VENDOR_SPECIFIC then front else front + [a]
  }

  /** The packet after `p.Set` of a vendor-specific attribute: it is the only one left. */
  function SetVsa(attrs: seq<Avp>, value: seq<byte>): seq<Avp> { Others(attrs) + [Avp(VENDOR_SPECIFIC, value)] }

  function AddVsa(attrs: seq<Avp>, value: seq<byte>): seq<Avp> { attrs + [Avp(VENDOR_SPECIFIC, value)] }

  function Uint32Sub(kind: byte, value: uint32): Sub { Sub(kind, BigEndian(value)) }

  /** The packet after a uint32 setter; zero is not sent. */
  function WithUint32(attrs: seq<Avp>, vendor: uint32, kind: byte, value: uint32): seq<Avp> {
    if value == 0 then attrs else AddVsa(attrs, BigEndian(vendor) + Encode(Uint32Sub(kind, value)))
  }

  /** The values a string setter sends: not empty, and short enough for the attribute. */
  predicate Sendable(value: seq<byte>) { 1 <= |value| <= 247 }

  /** The packet after a MikroTik string setter. */
  function WithString(attrs: seq<Avp>, kind: byte, value: seq<byte>, set_: bool): seq<Avp> {
    if !Sendable(value) then attrs
    else
      var attr := BigEndian(MIKROTIK) + Encode(Sub(kind, value));
      if set_ then SetVsa(attrs, attr) else AddVsa(attrs, attr)
  }

  lemma {:induction false} VendorSubsConcat(a: seq<Avp>, b: seq<Avp>, vendor: uint32)
    ensures VendorSubs(a + b, vendor) == VendorSubs(a, vendor) + VendorSubs(b, vendor)
    decreases |a|
  {
    if a == [] {
      assert a + b == b;
    } else {
      assert (a + b)[1..] == a[1..] + b;
      VendorSubsConcat(a[1..], b, vendor);
    }
  }

  lemma {:induction false} FirstConcat(a: seq<Sub>, b: seq<Sub>, w: Want)
    ensures First(a + b, w) == if First(a, w).Some? then First(a, w) else First(b, w)
    decreases |a|
  {
    if a == [] {
      assert a + b == b;
    } else {
      assert (a + b)[1..] == a[1..] + b;
      FirstConcat(a[1..], b, w);
    }
  }

  /** The packet object. */
  class Packet {
    var attributes: seq<Avp>

    method Add(kind: byte, value: seq<byte>)
      modifies this
      ensures attributes == old(attributes) + [Avp(kind, value)]
    {
      attributes := attributes + [Avp(kind, value)];
    }

    method SetVendorSpecific(value: seq<byte>)
      modifies this
      ensures attributes == SetVsa(old(attributes), value)
    {
      var kept := [];
      for i := 0 to |attributes|
        invariant attributes == old(attributes) && kept == Others(attributes[..i])
      {
        assert attributes[..i + 1][..i] == attributes[..i];
        if attributes[i].kind != VENDOR_SPECIFIC {
          kept := kept + [attributes[i]];
        }
      }
      assert attributes[..|attributes|] == attributes;
      attributes := kept + [Avp(VENDOR_SPECIFIC, value)];
    }
  }

  method VsaSetUint32(p: Packet, vendorID: uint32, vendorType: byte, value: uint32) returns (ok: bool)
    modifies p
    ensures ok
    ensures p.attributes == WithUint32(old(p.attributes), vendorID, vendorType, value)
  {
    if value == 0 {
      return true;
    }
    var sub := new byte[6];
    sub[0] := vendorType;
    sub[1] := 6;
    var be := BigEndian(value);
    sub[2], sub[3], sub[4], sub[5] := be[0], be[1], be[2], be[3];
    assert sub[..] == Encode(Uint32Sub(vendorType, value));
    var attr := NewVendorSpecific(vendorID, sub[..]);
    if attr.None? {
      return false;
    }
    p.Add(VENDOR_SPECIFIC, attr.value);
    ok := true;
  }

  /** The length byte is the low byte of the length, but a length it cannot hold is one
      the attribute cannot hold either. */
  method MakeMikrotikVSA(vendorType: byte, value: seq<byte>) returns (attr: Option<seq<byte>>)
    ensures attr.Some? <==> |value| <= 247
    ensures Sendable(value) ==> attr == Some(BigEndian(MIKROTIK) + Encode(Sub(vendorType, value)))
  {
    var sub := new byte[2 + |value|];
    sub[0] := vendorType;
    sub[1] := sub.Length % 256;
    for i := 0 to |value|
      invariant sub[0] == vendorType && sub[1] == (|value| + 2) % 256
      invariant sub[2..2 + i] == value[..i]
    {
      sub[2 + i] := value[i];
    }
    assert sub[..] == [vendorType, (|value| + 2) % 256] + value;
    attr := NewVendorSpecific(MIKROTIK, sub[..]);
  }

  method MikrotikVSASetString(p: Packet, vendorType: byte, value: seq<byte>, set_: bool) returns (ok: bool)
    modifies p
    ensures ok <==> |value| <= 247
    ensures p.attributes == WithString(old(p.attributes), vendorType, value, set_)
  {
    if value == [] {
      return true;
    }
    var attr := MakeMikrotikVSA(vendorType, value);
    if attr.None? {
      return false;
    }
    ok := true;
    if set_ {
      p.SetVendorSpecific(attr.value);
    } else {
      p.Add(VENDOR_SPECIFIC, attr.value);
    }
  }

  /** The bounded scanner over one attribute after the other. */
  method PfSenseVSAGetUint32(p: Packet, vendorType: byte) returns (r: Option<uint32>)
    ensures var v := Lookup(p.attributes, PFSENSE, Want(vendorType, 4));
            r == if v.Some? then Some(FromBigEndian(v.value)) else None
  {
    ghost var w := Want(vendorType, 4);
    for i := 0 to |p.attributes|
      invariant Lookup(p.attributes, PFSENSE, w) == Lookup(p.attributes[i..], PFSENSE, w)
    {
      var avp := p.attributes[i];
      LookupNext(p.attributes[i..], PFSENSE, w);
      assert p.attributes[i..][1..] == p.attributes[i + 1..];
      if avp.kind != VENDOR_SPECIFIC {
        continue;
      }
      if |avp.value| < 5 || FromBigEndian(avp.value) != PFSENSE {
        continue;
      }
      var vsa := avp.value[4..];
      while |vsa| >= 3
        invariant First(Scan(VendorBytes(avp, PFSENSE)), w) == First(Scan(vsa), w)
      {
        var vt, vlen := vsa[0], vsa[1];
        if vlen < 3 || vlen > |vsa| {
          break;
        }
        assert Scan(vsa) == [Sub(vt, vsa[2..vlen])] + Scan(vsa[vlen..]);
        if vt == vendorType && vlen >= 6 {
          return Some(FromBigEndian(vsa[2..6]));
        }
        vsa := vsa[vlen..];
      }
    }
    r := None;
  }

  method MikrotikVSAGetString(p: Packet, vendorType: byte) returns (r: seq<byte>)
    ensures var v := Lookup(p.attributes, MIKROTIK, Want(vendorType, 1));
            r == if v.Some? then v.value else []
  {
    ghost var w := Want(vendorType, 1);
    for i := 0 to |p.attributes|
      invariant Lookup(p.attributes, MIKROTIK, w) == Lookup(p.attributes[i..], MIKROTIK, w)
    {
      var avp := p.attributes[i];
      LookupNext(p.attributes[i..], MIKROTIK, w);
      assert p.attributes[i..][1..] == p.attributes[i + 1..];
      if avp.kind != VENDOR_SPECIFIC {
        continue;
      }
      if |avp.value| < 5 || FromBigEndian(avp.value) != MIKROTIK {
        continue;
      }
      var vsa := avp.value[4..];
      while |vsa| >= 3
        invariant First(Scan(VendorBytes(avp, MIKROTIK)), w) == First(Scan(vsa), w)
      {
        var vt, vlen := vsa[0], vsa[1];
        if vlen < 3 || vlen > |vsa| {
          break;
        }
        assert Scan(vsa) == [Sub(vt, vsa[2..vlen])] + Scan(vsa[vlen..]);
        if vt == vendorType {
          return vsa[2..vlen];
        }
        vsa := vsa[vlen..];
      }
    }
    r := [];
  }

  lemma LookupNext(attrs: seq<Avp>, vendor: uint32, w: Want)
    requires attrs != []
    ensures var here := First(Scan(VendorBytes(attrs[0], vendor)), w);
            Lookup(attrs, vendor, w) == if here.Some? then here else Lookup(attrs[1..], vendor, w)
  {
    FirstConcat(Scan(VendorBytes(attrs[0], vendor)), VendorSubs(attrs[1..], vendor), w);
  }

  // ----- round trips -----

  /** An attribute holding the encodings of some sub-attributes shows exactly these to its
      own vendor, and nothing to any other. */
  lemma ShowsEncoded(vendor: uint32, subs: seq<Sub>, reader: uint32)
    requires AllWellFormed(subs) && subs != []
    ensures Scan(VendorBytes(Avp(VENDOR_SPECIFIC, BigEndian(vendor) + EncodeAll(subs)), reader))
         == if reader == vendor then subs else []
  {
    BigEndianRoundTrip(vendor, EncodeAll(subs));
    assert (BigEndian(vendor) + EncodeAll(subs))[4..] == EncodeAll(subs);
    ScanOfEncode(subs, []);
    assert EncodeAll(subs) + [] == EncodeAll(subs);
  }

  lemma ShowsOne(vendor: uint32, s: Sub, reader: uint32)
    requires WellFormed(s)
    ensures VendorSubs([Avp(VENDOR_SPECIFIC, BigEndian(vendor) + Encode(s))], reader) == if reader == vendor then [s] else []
  {
    assert EncodeAll([s]) == Encode(s) + EncodeAll([s][1..]) == Encode(s);
    ShowsEncoded(vendor, [s], reader);
    assert VendorSubs([Avp(VENDOR_SPECIFIC, BigEndian(vendor) + Encode(s))][1..], reader) == [];
  }

  /** Adding a sub-attribute appends it to what its vendor reads, and changes nothing for
      any other vendor. */
  lemma AddedIsLast(attrs: seq<Avp>, vendor: uint32, s: Sub, reader: uint32)
    requires WellFormed(s)
    ensures VendorSubs(AddVsa(attrs, BigEndian(vendor) + Encode(s)), reader)
         == VendorSubs(attrs, reader) + if reader == vendor then [s] else []
  {
    VendorSubsConcat(attrs, [Avp(VENDOR_SPECIFIC, BigEndian(vendor) + Encode(s))], reader);
    ShowsOne(vendor, s, reader);
  }

  lemma {:induction false} OthersShowNothing(attrs: seq<Avp>, reader: uint32)
    ensures VendorSubs(Others(attrs), reader) == []
    decreases |attrs|
  {
    if attrs != [] {
      var front, a := attrs[..|attrs| - 1], attrs[|attrs| - 1];
      OthersShowNothing(front, reader);
      VendorSubsConcat(Others(front), [a], reader);
      assert a.kind != VENDOR_SPECIFIC ==> VendorSubs([a], reader) == Scan([]) + VendorSubs([a][1..], reader);
    }
  }

  /** Setting a sub-attribute leaves it as the only one of any vendor. */
  lemma SetIsOnly(attrs: seq<Avp>, vendor: uint32, s: Sub, reader: uint32)
    requires WellFormed(s)
    ensures VendorSubs(SetVsa(attrs, BigEndian(vendor) + Encode(s)), reader) == if reader == vendor then [s] else []
  {
    VendorSubsConcat(Others(attrs), [Avp(VENDOR_SPECIFIC, BigEndian(vendor) + Encode(s))], reader);
    OthersShowNothing(attrs, reader);
    ShowsOne(vendor, s, reader);
  }

  /** A value sent is the value read back exactly when the packet did not already carry a
      different one of that vendor and type. */
  lemma Uint32RoundTripIff(attrs: seq<Avp>, vendor: uint32, kind: byte, value: uint32)
    requires value != 0
    ensures var w := Want(kind, 4);
            var before, after := Lookup(attrs, vendor, w), Lookup(WithUint32(attrs, vendor, kind, value), vendor, w);
            && after.Some?
            && (before.Some? ==> after == before)
            && (FromBigEndian(after.value) == value <==> before.None? || FromBigEndian(before.value) == value)
  {
    var s := Uint32Sub(kind, value);
    AddedIsLast(attrs, vendor, s, vendor);
    FirstConcat(VendorSubs(attrs, vendor), [s], Want(kind, 4));
    BigEndianRoundTrip(value, []);
    assert BigEndian(value) + [] == BigEndian(value);
  }

  /** Likewise for a string that is added; one that is set is always read back. */
  lemma StringRoundTripIff(attrs: seq<Avp>, kind: byte, value: seq<byte>, set_: bool)
    requires Sendable(value)
    ensures var w := Want(kind, 1);
            var before, after := Lookup(attrs, MIKROTIK, w), Lookup(WithString(attrs, kind, value, set_), MIKROTIK, w);
            after == Some(value) <==> set_ || before.None? || before == Some(value)
  {
    var s := Sub(kind, value);
    if set_ {
      SetIsOnly(attrs, MIKROTIK, s, MIKROTIK);
    } else {
      AddedIsLast(attrs, MIKROTIK, s, MIKROTIK);
      FirstConcat(VendorSubs(attrs, MIKROTIK), [s], Want(kind, 1));
    }
  }

  /** The bytes on the wire, by examples: the MikroTik group "a" and a pfSense total of 258
      octets, with the vendor numbers 14988 and 13644. */
  lemma OnTheWire()
    ensures WithString([], 4, [97], true) == [Avp(26, [0, 0, 0x3A, 0x8C, 4, 3, 97])]
    ensures WithUint32([], PFSENSE, 3, 258) == [Avp(26, [0, 0, 0x35, 0x4C, 3, 6, 0, 0, 1, 2])]
  {
    assert BigEndian(MIKROTIK) == [0, 0, 0x3A, 0x8C] && Encode(Sub(4, [97])) == [4, 3, 97];
    assert BigEndian(PFSENSE) == [0, 0, 0x35, 0x4C] && BigEndian(258) == [0, 0, 1, 2];
    assert Encode(Uint32Sub(3, 258)) == [3, 6, 0, 0, 1, 2];
    assert [0, 0, 0x3A, 0x8C] + [4, 3, 97] == [0, 0, 0x3A, 0x8C, 4, 3, 97];
    assert [0, 0, 0x35, 0x4C] + [3, 6, 0, 0, 1, 2] == [0, 0, 0x35, 0x4C, 3, 6, 0, 0, 1, 2];
    assert Others([]) == [] && BigEndian(MIKROTIK) + Encode(Sub(4, [97])) == [0, 0, 0x3A, 0x8C, 4, 3, 97];
    assert BigEndian(PFSENSE) + Encode(Uint32Sub(3, 258)) == [0, 0, 0x35, 0x4C, 3, 6, 0, 0, 1, 2];
  }

  // ----- what is left of a reply -----

  /** The setters that build a reply: strings are set, 32-bit values are added. */
  datatype Setter = SetString(kind: byte, value: seq<byte>) | AddUint32(vendor: uint32, kind: byte, number: uint32)

  function Built(attrs: seq<Avp>, setters: seq<Setter>): seq<Avp> {
    if setters == [] then attrs
    else
      var front := Built(attrs, setters[..|setters| - 1]);
      match setters[|setters| - 1]
      case SetString(kind, value) => WithString(front, kind, value, true)
      case AddUint32(vendor, kind, number) => WithUint32(front, vendor, kind, number)
  }

  /** The sub-attributes of a vendor that a list of setters asks for. */
  function Asked(setters: seq<Setter>, reader: uint32): seq<Sub> {
    if setters == [] then []
    else Asked(setters[..|setters| - 1], reader) + AskedBy(setters[|setters| - 1], reader)
  }

  function AskedBy(s: Setter, reader: uint32): seq<Sub> {
    match s
    case SetString(kind, value) => if Sendable(value) && reader == MIKROTIK then [Sub(kind, value)] else []
    case AddUint32(vendor, kind, number) => if number != 0 && reader == vendor then [Uint32Sub(kind, number)] else []
  }

  predicate Effective(s: Setter) { s.SetString? && Sendable(s.value) }

  /** Where the reply's sub-attributes begin: at the last string that was set. */
  function LastString(setters: seq<Setter>): nat
    ensures LastString(setters) <= |setters|
  {
    if setters == [] then 0
    else if Effective(setters[|setters| - 1]) then |setters| - 1
    else LastString(setters[..|setters| - 1])
  }

  /** The last string set wipes every vendor-specific attribute before it: of a reply built
      from nothing, each vendor reads exactly what was asked for from there on. */
  lemma {:induction false} LastStringWins(attrs: seq<Avp>, setters: seq<Setter>, reader: uint32)
    requires VendorSubs(attrs, reader) == []
    ensures VendorSubs(Built(attrs, setters), reader) == Asked(setters[LastString(setters)..], reader)
    decreases |setters|
  {
    if setters == [] {
      assert setters[0..] == [];
    } else {
      var front, s := setters[..|setters| - 1], setters[|setters| - 1];
      LastStringWins(attrs, front, reader);
      var k := LastString(setters);
      AskedSnoc(setters, k, reader);
      if Effective(s) {
        SetIsOnly(Built(attrs, front), MIKROTIK, Sub(s.kind, s.value), reader);
        assert setters[k..][..0] == [];
      } else if s.AddUint32? && s.number != 0 {
        AddedIsLast(Built(attrs, front), s.vendor, Uint32Sub(s.kind, s.number), reader);
      }
    }
  }

  lemma AskedSnoc(setters: seq<Setter>, k: nat, reader: uint32)
    requires k < |setters|
    ensures Asked(setters[k..], reader) == Asked(setters[..|setters| - 1][k..], reader) + AskedBy(setters[|setters| - 1], reader)
  {
    assert setters[k..][..|setters[k..]| - 1] == setters[..|setters| - 1][k..];
  }

  /** So a reply that is given an address pool and then a rate limit, or a rate limit and
      then a group, carries only the later one, whatever 32-bit values of other vendors lie
      between them: the earlier one can be read exactly when the later one is not sent. */
  lemma EarlierStringSurvivesIff(earlier: byte, v: seq<byte>, setters: seq<Setter>, later: byte, w: seq<byte>)
    requires Sendable(v) && earlier != later && forall s :: s in setters ==> s.AddUint32? && s.vendor != MIKROTIK
    ensures var reply := Built([], [SetString(earlier, v)] + setters + [SetString(later, w)]);
            Lookup(reply, MIKROTIK, Want(earlier, 1)) == Some(v) <==> !Sendable(w)
  {
    var first, last := SetString(earlier, v), SetString(later, w);
    var all := [first] + setters + [last];
    LastStringWins([], all, MIKROTIK);
    assert all[..|all| - 1] == [first] + setters;
    if Sendable(w) {
      assert all[|all| - 1..] == [last];
      assert Asked([last], MIKROTIK) == Asked([last][..0], MIKROTIK) + [Sub(later, w)];
      assert Asked([last][..0], MIKROTIK) == [] && [] + [Sub(later, w)] == [Sub(later, w)];
      FirstIsFirst([Sub(later, w)], Want(earlier, 1));
    } else {
      OnlyString(first, setters);
      assert all[0..] == all;
      AskedSnoc(all, 0, MIKROTIK);
      assert all[..|all| - 1][0..] == [first] + setters && AskedBy(last, MIKROTIK) == [];
      FirstConcat([Sub(earlier, v)], [], Want(earlier, 1));
    }
  }

  lemma {:induction false} OnlyString(first: Setter, setters: seq<Setter>)
    requires Effective(first) && forall s :: s in setters ==> s.AddUint32? && s.vendor != MIKROTIK
    ensures LastString([first] + setters) == 0
    ensures Asked([first] + setters, MIKROTIK) == [Sub(first.kind, first.value)]
    decreases |setters|
  {
    var all := [first] + setters;
    if setters == [] {
      assert all[..0] == [];
    } else {
      assert all[..|all| - 1] == [first] + setters[..|setters| - 1];
      assert all[|all| - 1] == setters[|setters| - 1] && setters[|setters| - 1] in setters;
      OnlyString(first, setters[..|setters| - 1]);
    }
  }
}
