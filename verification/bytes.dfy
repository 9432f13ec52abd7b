/** Octets, fixed-width unsigned integers and the two byte orders of the wire format. */
module Bytes {
  type byte = x: int | 0 <= x < 0x100
  type uint16 = x: int | 0 <= x < 0x1_0000
  type uint32 = x: int | 0 <= x < 0x1_0000_0000
  type uint64 = x: int | 0 <= x < 0x1_0000_0000_0000_0000

  function GetBE16(a: byte, b: byte): uint16 {
    a * 0x100 + b
  }

  function GetBE32(a: byte, b: byte, c: byte, d: byte): uint32 {
    a * 0x100_0000 + b * 0x1_0000 + c * 0x100 + d
  }

  function PutBE16(v: uint16): (r: seq<byte>)
    ensures |r| == 2
  {
    [v / 0x100, v % 0x100]
  }

  function PutBE32(v: uint32): (r: seq<byte>)
    ensures |r| == 4
  {
    [v / 0x100_0000, v / 0x1_0000 % 0x100, v / 0x100 % 0x100, v % 0x100]
  }

  function PutLE16(v: uint16): (r: seq<byte>)
    ensures |r| == 2
  {
    [v % 0x100, v / 0x100]
  }

  function PutLE32(v: uint32): (r: seq<byte>)
    ensures |r| == 4
  {
    [v % 0x100, v / 0x100 % 0x100, v / 0x1_0000 % 0x100, v / 0x100_0000]
  }

  lemma Split32(v: uint32)
    ensures v == (v / 0x100_0000) * 0x100_0000 + (v / 0x1_0000 % 0x100) * 0x1_0000
               + (v / 0x100 % 0x100) * 0x100 + v % 0x100
  {
    var q, q2 := v / 0x100, v / 0x1_0000;
    assert q2 == q / 0x100;
    assert v / 0x100_0000 == q2 / 0x100;
  }

  lemma BE32RoundTrip(v: uint32)
    ensures var p := PutBE32(v); GetBE32(p[0], p[1], p[2], p[3]) == v
  {
    Split32(v);
  }

  lemma BE32Inverse(a: byte, b: byte, c: byte, d: byte)
    ensures PutBE32(GetBE32(a, b, c, d)) == [a, b, c, d]
  {
    var v := GetBE32(a, b, c, d);
    assert v / 0x100 == a * 0x1_0000 + b * 0x100 + c;
    assert v / 0x1_0000 == a * 0x100 + b;
    assert v / 0x100_0000 == a;
  }

  lemma BE16Inverse(a: byte, b: byte)
    ensures PutBE16(GetBE16(a, b)) == [a, b]
  {
  }

  lemma LE16Injective(v: uint16, w: uint16)
    requires PutLE16(v) == PutLE16(w)
    ensures v == w
  {
    var p, q := PutLE16(v), PutLE16(w);
    assert p[0] == q[0] && p[1] == q[1];
  }

  lemma LE32Injective(v: uint32, w: uint32)
    requires PutLE32(v) == PutLE32(w)
    ensures v == w
  {
    var p, q := PutLE32(v), PutLE32(w);
    assert p[0] == q[0] && p[1] == q[1] && p[2] == q[2] && p[3] == q[3];
    Split32(v);
    Split32(w);
  }
}
