/** Vendor-specific sub-attributes as bytes: section 5.26 of RFC 2865. */
module Tlv {
  import opened Domain

  type byte = x: int | 0 <= x < 256

  /** A sub-attribute: a vendor type and a value. */
  datatype Sub = Sub(kind: byte, value: seq<byte>)

  /** The value is not empty and its length, with the two-byte header, fits a byte. */
  predicate WellFormed(s: Sub) { 1 <= |s.value| <= 253 }

  function Encode(s: Sub): (bs: seq<byte>)
    requires WellFormed(s)
  {
    [s.kind, |s.value| + 2] + s.value
  }

  ghost predicate AllWellFormed(subs: seq<Sub>) { forall i :: 0 <= i < |subs| ==> WellFormed(subs[i]) }

  function EncodeAll(subs: seq<Sub>): seq<byte>
    requires AllWellFormed(subs)
  {
    if subs == [] then [] else Encode(subs[0]) + EncodeAll(subs[1..])
  }

  /** The bytes begin with a sub-attribute that is not empty and not cut off. */
  predicate Begins(bs: seq<byte>) { |bs| >= 3 && 3 <= bs[1] <= |bs| }

  /** The sub-attributes a scan meets before it stops. */
  function Scan(bs: seq<byte>): (subs: seq<Sub>)
    ensures AllWellFormed(subs)
    decreases |bs|
  {
    if Begins(bs) then [Sub(bs[0], bs[2..bs[1]])] + Scan(bs[bs[1]..]) else []
  }

  lemma ScanOfOne(s: Sub, rest: seq<byte>)
    requires WellFormed(s)
    ensures Scan(Encode(s) + rest) == [s] + Scan(rest)
  {
  }

  /** Scanning what was encoded gives it back, whatever follows. */
  lemma {:induction false} ScanOfEncode(subs: seq<Sub>, tail: seq<byte>)
    requires AllWellFormed(subs)
    ensures Scan(EncodeAll(subs) + tail) == subs + Scan(tail)
    decreases |subs|
  {
    if subs == [] {
      assert EncodeAll(subs) + tail == tail;
      assert subs + Scan(tail) == Scan(tail);
    } else {
      var rest := EncodeAll(subs[1..]) + tail;
      assert EncodeAll(subs) + tail == Encode(subs[0]) + rest;
      ScanOfOne(subs[0], rest);
      ScanOfEncode(subs[1..], tail);
      assert [subs[0]] + (subs[1..] + Scan(tail)) == subs + Scan(tail);
    }
  }

  /** On arbitrary bytes the scan finds exactly the longest well-formed beginning: the
      bytes are what it found, encoded, followed by something that begins nothing. */
  lemma {:induction false} ScanIsMaximal(bs: seq<byte>) returns (rest: seq<byte>)
    ensures bs == EncodeAll(Scan(bs)) + rest && !Begins(rest)
    decreases |bs|
  {
    if Begins(bs) {
      var s := Sub(bs[0], bs[2..bs[1]]);
      rest := ScanIsMaximal(bs[bs[1]..]);
      assert Scan(bs) == [s] + Scan(bs[bs[1]..]);
      assert Scan(bs)[1..] == Scan(bs[bs[1]..]);
      assert bs == Encode(s) + bs[bs[1]..];
    } else {
      rest := bs;
    }
  }

  /** And there is only one way to read the bytes like that. */
  lemma ReadingIsUnique(subs: seq<Sub>, rest: seq<byte>)
    requires AllWellFormed(subs) && !Begins(rest)
    ensures Scan(EncodeAll(subs) + rest) == subs
  {
    ScanOfEncode(subs, rest);
  }

  /** What a getter looks for: a vendor type, with at least so many bytes of value. */
  datatype Want = Want(kind: byte, atLeast: nat)

  predicate Fits(s: Sub, w: Want) { s.kind == w.kind && |s.value| >= w.atLeast }

  function First(subs: seq<Sub>, w: Want): (v: Option<seq<byte>>)
    ensures v.Some? ==> |v.value| >= w.atLeast
  {
    if subs == [] then None
    else if Fits(subs[0], w) then Some(subs[0].value)
    else First(subs[1..], w)
  }

  lemma {:induction false} FirstIsFirst(subs: seq<Sub>, w: Want)
    ensures First(subs, w).None? <==> forall i :: 0 <= i < |subs| ==> !Fits(subs[i], w)
    ensures First(subs, w).Some? ==>
              exists i :: 0 <= i < |subs| && Fits(subs[i], w) && First(subs, w).value == subs[i].value
                       && forall j :: 0 <= j < i ==> !Fits(subs[j], w)
    decreases |subs|
  {
    if subs != [] {
      FirstIsFirst(subs[1..], w);
      if !Fits(subs[0], w) && First(subs[1..], w).Some? {
        var i :| 0 <= i < |subs[1..]| && Fits(subs[1..][i], w) && First(subs[1..], w).value == subs[1..][i].value
              && forall j :: 0 <= j < i ==> !Fits(subs[1..][j], w);
        assert Fits(subs[i + 1], w) && First(subs, w).value == subs[i + 1].value;
        forall j | 0 <= j < i + 1 ensures !Fits(subs[j], w) {
          if j > 0 {
            assert subs[j] == subs[1..][j - 1];
          }
        }
      }
      if First(subs, w).None? {
        forall i | 0 <= i < |subs| ensures !Fits(subs[i], w) {
          if i > 0 {
            assert subs[i] == subs[1..][i - 1];
          }
        }
      }
    }
  }

  // ----- 32-bit values -----

  function BigEndian(v: uint32): (bs: seq<byte>)
    ensures |bs| == 4
  {
    [v / 0x100_0000, v / 0x1_0000 % 256, v / 256 % 256, v % 256]
  }

  function FromBigEndian(bs: seq<byte>): (v: uint32)
    requires |bs| >= 4
  {
    var a: int, b: int, c: int, d: int := bs[0], bs[1], bs[2], bs[3];
    a * 0x100_0000 + b * 0x1_0000 + c * 256 + d
  }

  lemma BigEndianRoundTrip(v: uint32, tail: seq<byte>)
    ensures FromBigEndian(BigEndian(v) + tail) == v
  {
    assert v == v / 256 * 256 + v % 256;
    assert v / 256 == v / 0x1_0000 * 256 + v / 256 % 256;
    assert v / 0x1_0000 == v / 0x100_0000 * 256 + v / 0x1_0000 % 256;
  }
}
