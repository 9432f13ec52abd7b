/** Most-significant-bit-first fields over a byte buffer: what is read, what is written, and the
    cursor that walks the buffer. */
module BitFields {
  import opened Bytes

  type bit = x: int | 0 <= x < 2

  const MAX_WIDTH := 64
  const MAX_STRING_LENGTH := 4096

  datatype Error = PastEnd | BadWidth | Unterminated | EmptyAddress

  /** A value and the bits after it, or the error that stops the parse. */
  datatype Outcome<T> = Ok(value: T, rest: seq<bit>) | Failed(error: Error)

  function Pow2(n: nat): (p: nat)
    ensures p > 0
  {
    if n == 0 then 1 else 2 * Pow2(n - 1)
  }

  /** The number whose binary digits these are, most significant first. */
  function Number(s: seq<bit>): (v: nat)
    ensures v < Pow2(|s|)
    decreases |s|
  {
    if s == [] then 0 else 2 * Number(s[..|s| - 1]) + s[|s| - 1]
  }

  function Digits(v: nat, n: nat): (s: seq<bit>)
    ensures |s| == n
  {
    if n == 0 then [] else Digits(v / 2, n - 1) + [v % 2]
  }

  lemma {:induction false} NumberOfDigits(v: nat, n: nat)
    requires v < Pow2(n)
    ensures Number(Digits(v, n)) == v
    decreases n
  {
    if n > 0 {
      NumberOfDigits(v / 2, n - 1);
      assert Digits(v, n)[..n - 1] == Digits(v / 2, n - 1);
    }
  }

  lemma DigitsSnoc(v: nat, b: bit, n: nat)
    ensures Digits(2 * v + b, n + 1) == Digits(v, n) + [b]
  {
    assert (2 * v + b) / 2 == v && (2 * v + b) % 2 == b;
  }

  lemma {:induction false} DigitsOfNumber(s: seq<bit>)
    ensures Digits(Number(s), |s|) == s
    decreases |s|
  {
    hide Digits;
    if s == [] {
      assert Digits(0, 0) == [];
    } else {
      var n := |s| - 1;
      DigitsOfNumber(s[..n]);
      DigitsSnoc(Number(s[..n]), s[n], n);
      assert s == s[..n] + [s[n]];
    }
  }

  // ---- Buffers as bit strings ----

  /** Bit i of an octet, counted from the most significant. */
  function BitOf(b: byte, i: nat): bit
    requires i < 8
  {
    b / Pow2(7 - i) % 2
  }

  function Bits(buf: seq<byte>): (s: seq<bit>)
    ensures |s| == 8 * |buf|
  {
    seq(8 * |buf|, k requires 0 <= k < 8 * |buf| => BitOf(buf[k / 8], k % 8))
  }

  function Octet(s: seq<bit>): byte
    requires |s| == 8
  {
    Weighed(s[0], s[1], s[2], s[3], s[4], s[5], s[6], s[7])
  }

  function Weighed(a: int, b: int, c: int, d: int, e: int, f: int, g: int, h: int): int {
    128 * a + 64 * b + 32 * c + 16 * d + 8 * e + 4 * f + 2 * g + h
  }

  function Zeros(n: nat): (s: seq<bit>)
    ensures |s| == n
  {
    seq(n, _ => 0)
  }

  /** How a writer fills octets: the last one is padded with zero bits. */
  function Pack(s: seq<bit>): seq<byte>
    decreases |s|
  {
    if s == [] then []
    else if |s| < 8 then [Octet(s + Zeros(8 - |s|))]
    else [Octet(s[..8])] + Pack(s[8..])
  }

  function Padding(s: seq<bit>): nat { (8 - |s| % 8) % 8 }

  lemma Powers()
    ensures Pow2(0) == 1 && Pow2(1) == 2 && Pow2(2) == 4 && Pow2(3) == 8
    ensures Pow2(4) == 16 && Pow2(5) == 32 && Pow2(6) == 64 && Pow2(7) == 128 && Pow2(8) == 256
  {
  }

  lemma {:induction false} PowerOfSum(m: nat, n: nat)
    ensures Pow2(m + n) == Pow2(m) * Pow2(n)
    decreases m
  {
    if m > 0 {
      PowerOfSum(m - 1, n);
    }
  }

  lemma HighBits(a: bit, b: bit, c: bit, d: bit, e: bit, f: bit, g: bit, h: bit)
    ensures var v: int := Weighed(a, b, c, d, e, f, g, h);
            && v / 128 == a && v / 64 % 2 == b && v / 32 % 2 == c && v / 16 % 2 == d
  {
    var v: int := Weighed(a, b, c, d, e, f, g, h);
    var a1: int, b1: int, c1: int, d1: int := a, b, c, d;
    assert v / 128 == a1;
    assert v / 64 == 2 * a1 + b1;
    assert v / 32 == 4 * a1 + 2 * b1 + c1;
    assert v / 16 == 8 * a1 + 4 * b1 + 2 * c1 + d1;
  }

  lemma LowBits(a: bit, b: bit, c: bit, d: bit, e: bit, f: bit, g: bit, h: bit)
    ensures var v: int := Weighed(a, b, c, d, e, f, g, h);
            && v / 8 % 2 == e && v / 4 % 2 == f && v / 2 % 2 == g && v % 2 == h
  {
    var v: int := Weighed(a, b, c, d, e, f, g, h);
    var q: int, e1: int, f1: int, g1: int, h1: int := 8 * a + 4 * b + 2 * c + d, e, f, g, h;
    assert v == 16 * q + 8 * e1 + 4 * f1 + 2 * g1 + h1;
    assert v / 8 == 2 * q + e1;
    assert v / 4 == 4 * q + 2 * e1 + f1;
    assert v / 2 == 8 * q + 4 * e1 + 2 * f1 + g1;
  }

  lemma OctetBit(s: seq<bit>, i: nat)
    requires |s| == 8 && i < 8
    ensures BitOf(Octet(s), i) == s[i]
  {
    Powers();
    hide Weighed;
    hide Pow2;
    HighBits(s[0], s[1], s[2], s[3], s[4], s[5], s[6], s[7]);
    LowBits(s[0], s[1], s[2], s[3], s[4], s[5], s[6], s[7]);
  }

  lemma BitsOfOctet(s: seq<bit>)
    requires |s| == 8
    ensures Bits([Octet(s)]) == s
  {
    forall i: nat | i < 8
      ensures BitOf(Octet(s), i) == s[i]
    {
      OctetBit(s, i);
    }
  }

  lemma BitsConcat(a: seq<byte>, b: seq<byte>)
    ensures Bits(a + b) == Bits(a) + Bits(b)
  {
    forall k: nat | k < 8 * |a + b|
      ensures Bits(a + b)[k] == (Bits(a) + Bits(b))[k]
    {
      if k >= 8 * |a| {
        var j := k - 8 * |a|;
        assert k / 8 == |a| + j / 8 && k % 8 == j % 8;
      }
    }
  }

  lemma PaddingShort(s: seq<bit>)
    requires 0 < |s| < 8
    ensures Padding(s) == 8 - |s|
  {
  }

  lemma PaddingLong(s: seq<bit>)
    requires |s| >= 8
    ensures Padding(s[8..]) == Padding(s)
  {
    assert (|s| - 8) % 8 == |s| % 8;
  }

  lemma PackShort(s: seq<bit>)
    requires 0 < |s| < 8
    ensures Pack(s) == [Octet(s + Zeros(8 - |s|))]
  {
    hide Octet;
  }

  lemma PackLong(s: seq<bit>)
    requires |s| >= 8
    ensures Pack(s) == [Octet(s[..8])] + Pack(s[8..])
  {
    hide Octet;
  }

  /** Packing loses nothing and adds only the padding. */
  lemma {:induction false} PackRoundTrip(s: seq<bit>)
    ensures Bits(Pack(s)) == s + Zeros(Padding(s))
    decreases |s|
  {
    hide Pack;
    hide Octet;
    hide Bits;
    hide Padding;
    if s == [] {
      PackNothing();
    } else if |s| < 8 {
      PaddingShort(s);
      PackShort(s);
      BitsOfOctet(s + Zeros(8 - |s|));
    } else {
      PaddingLong(s);
      PackLong(s);
      BitsOfOctet(s[..8]);
      BitsConcat([Octet(s[..8])], Pack(s[8..]));
      PackRoundTrip(s[8..]);
      var z := Zeros(Padding(s));
      assert s[..8] + (s[8..] + z) == s + z;
    }
  }

  lemma PackNothing()
    ensures Bits(Pack([])) == [] + Zeros(Padding([]))
  {
  }

  // ---- What the bits of octets are worth ----

  /** The number octets stand for, most significant first. */
  function BigEndian(buf: seq<byte>): nat
    decreases |buf|
  {
    if buf == [] then 0 else 0x100 * BigEndian(buf[..|buf| - 1]) + buf[|buf| - 1]
  }

  lemma {:induction false} NumberConcat(s: seq<bit>, t: seq<bit>)
    ensures Number(s + t) == Number(s) * Pow2(|t|) + Number(t)
    decreases |t|
  {
    if t == [] {
      assert s + t == s;
    } else {
      var n := |t| - 1;
      assert Pow2(|t|) == 2 * Pow2(n);
      NumberSnoc(s + t[..n], t[n]);
      NumberSnoc(t[..n], t[n]);
      hide Number;
      hide Pow2;
      assert s + t == s + t[..n] + [t[n]] && t == t[..n] + [t[n]];
      NumberConcat(s, t[..n]);
      Shifted(Number(s), Pow2(n), Number(t[..n]), t[n]);
    }
  }

  lemma NumberSnoc(s: seq<bit>, b: bit)
    ensures Number(s + [b]) == 2 * Number(s) + b
  {
    assert (s + [b])[..|s|] == s;
  }

  lemma Shifted(a: nat, p: nat, v: nat, b: nat)
    ensures 2 * (a * p + v) + b == a * (2 * p) + (2 * v + b)
  {
  }

  /** The first bit of an octet is worth 128, the last 1. */
  lemma BitsOfNumber(b: byte)
    ensures b == 128 * BitOf(b, 0) + 64 * BitOf(b, 1) + 32 * BitOf(b, 2) + 16 * BitOf(b, 3)
               + 8 * BitOf(b, 4) + 4 * BitOf(b, 5) + 2 * BitOf(b, 6) + BitOf(b, 7)
  {
    Powers();
    var v: int := b;
    assert v / 64 == 2 * (v / 128) + v / 64 % 2 && v / 32 == 2 * (v / 64) + v / 32 % 2;
    assert v / 16 == 2 * (v / 32) + v / 16 % 2 && v / 8 == 2 * (v / 16) + v / 8 % 2;
    assert v / 4 == 2 * (v / 8) + v / 4 % 2 && v / 2 == 2 * (v / 4) + v / 2 % 2;
  }

  lemma NumberOf8(s: seq<bit>)
    requires |s| == 8
    ensures Number(s) == Weighed(s[0], s[1], s[2], s[3], s[4], s[5], s[6], s[7])
  {
    NumberUpTo(s, 1);
    NumberUpTo(s, 2);
    NumberUpTo(s, 3);
    NumberUpTo(s, 4);
    NumberUpTo(s, 5);
    NumberUpTo(s, 6);
    NumberUpTo(s, 7);
    NumberUpTo(s, 8);
    assert s[..8] == s && Number(s[..0]) == 0;
  }

  lemma NumberUpTo(s: seq<bit>, n: nat)
    requires 0 < n <= |s|
    ensures Number(s[..n]) == 2 * Number(s[..n - 1]) + s[n - 1]
  {
    assert s[..n][..n - 1] == s[..n - 1];
  }

  lemma NumberOfOctet(b: byte)
    ensures Number(Bits([b])) == b
  {
    hide BitOf;
    NumberOf8(Bits([b]));
    BitsOfNumber(b);
  }

  /** Read as one number, the bits of octets are what the octets are worth, the first the most. */
  lemma {:induction false} OctetsAreBigEndian(buf: seq<byte>)
    ensures Number(Bits(buf)) == BigEndian(buf)
    decreases |buf|
  {
    hide Number;
    if buf == [] {
      assert Number(Bits([])) == 0 by { NumberOfNothing(); }
    } else {
      var n := |buf| - 1;
      OctetsAreBigEndian(buf[..n]);
      assert buf == buf[..n] + [buf[n]];
      BitsConcat(buf[..n], [buf[n]]);
      NumberConcat(Bits(buf[..n]), Bits([buf[n]]));
      NumberOfOctet(buf[n]);
      Powers();
    }
  }

  lemma NumberOfNothing()
    ensures Number(Bits([])) == 0
  {
  }

  /** So a field of whole octets is those octets. */
  lemma DigitsAreOctets(buf: seq<byte>)
    ensures Digits(BigEndian(buf), 8 * |buf|) == Bits(buf)
  {
    OctetsAreBigEndian(buf);
    DigitsOfNumber(Bits(buf));
  }

  // ---- Fields ----

  function ReadUint(s: seq<bit>, n: int): Outcome<nat> {
    if n < 0 || n > MAX_WIDTH then Failed(BadWidth)
    else if |s| < n then Failed(PastEnd)
    else Ok(Number(s[..n]), s[n..])
  }

  function ReadBool(s: seq<bit>): Outcome<bool> {
    match ReadUint(s, 1)
    case Failed(e) => Failed(e)
    case Ok(v, rest) => Ok(v == 1, rest)
  }

  function ReadString(s: seq<bit>, room: nat): Outcome<seq<byte>>
    decreases room
  {
    if room == 0 then Failed(Unterminated) else
    match ReadUint(s, 8)
    case Failed(e) => Failed(e)
    case Ok(c, rest) =>
      Powers();
      if c == 0 then Ok([], rest) else
      match ReadString(rest, room - 1)
      case Failed(e) => Failed(e)
      case Ok(t, rest2) => Ok([c] + t, rest2)
  }

  function ReadCString(s: seq<bit>): Outcome<seq<byte>> { ReadString(s, MAX_STRING_LENGTH) }

  function WriteString(t: seq<byte>): seq<bit> {
    if t == [] then Digits(0, 8) else Digits(t[0], 8) + WriteString(t[1..])
  }

  /** What a NUL-terminated string field can hold. */
  predicate Terminable(t: seq<byte>, room: nat) {
    |t| < room && 0 !in t
  }

  lemma Split<T>(a: seq<T>, b: seq<T>)
    ensures (a + b)[..|a|] == a && (a + b)[|a|..] == b
  {
  }

  lemma UintRoundTrip(v: nat, n: nat, rest: seq<bit>)
    requires n <= MAX_WIDTH && v < Pow2(n)
    ensures ReadUint(Digits(v, n) + rest, n) == Ok(v, rest)
  {
    NumberOfDigits(v, n);
    Split(Digits(v, n), rest);
  }

  lemma UintInverse(s: seq<bit>, n: nat)
    requires ReadUint(s, n).Ok?
    ensures var r := ReadUint(s, n); s == Digits(r.value, n) + r.rest && r.value < Pow2(n)
  {
    hide Pow2;
    hide Digits;
    hide Number;
    DigitsOfNumber(s[..n]);
  }

  lemma {:induction false} StringRoundTrip(t: seq<byte>, room: nat, rest: seq<bit>)
    requires Terminable(t, room)
    ensures ReadString(WriteString(t) + rest, room) == Ok(t, rest)
    decreases |t|
  {
    hide Digits;
    hide ReadUint;
    Powers();
    if t == [] {
      UintRoundTrip(0, 8, rest);
    } else {
      UintRoundTrip(t[0], 8, WriteString(t[1..]) + rest);
      assert WriteString(t) + rest == Digits(t[0], 8) + (WriteString(t[1..]) + rest);
      StringRoundTrip(t[1..], room - 1, rest);
      assert t == [t[0]] + t[1..];
    }
  }

  /** Every string read is one a writer could have written, and was written by the bits consumed. */
  lemma {:induction false} StringInverse(s: seq<bit>, room: nat)
    requires ReadString(s, room).Ok?
    ensures var r := ReadString(s, room); Terminable(r.value, room) && s == WriteString(r.value) + r.rest
    decreases room
  {
    Powers();
    UintInverse(s, 8);
    var c := ReadUint(s, 8);
    if c.value != 0 {
      StringInverse(c.rest, room - 1);
      var r := ReadString(c.rest, room - 1);
      assert ([c.value] + r.value)[1..] == r.value;
      assert Digits(c.value, 8) + (WriteString(r.value) + r.rest) == Digits(c.value, 8) + WriteString(r.value) + r.rest;
    }
  }

  /** The octets of a text field hold no zero. */
  predicate NoZeroOctet(s: seq<bit>, n: nat)
    requires 8 * n <= |s|
  {
    forall k | 0 <= k < n :: Number(s[8 * k..8 * k + 8]) != 0
  }

  lemma NoZeroFirst(s: seq<bit>, n: nat)
    requires 0 < n && 8 * n <= |s|
    ensures NoZeroOctet(s, n) <==> Number(s[..8]) != 0 && NoZeroOctet(s[8..], n - 1)
  {
    assert s[8 * 0..8 * 0 + 8] == s[..8];
    if NoZeroOctet(s, n) {
      forall k | 0 <= k < n - 1
        ensures Number(s[8..][8 * k..8 * k + 8]) != 0
      {
        assert s[8..][8 * k..8 * k + 8] == s[8 * (k + 1)..8 * (k + 1) + 8];
      }
    }
    if Number(s[..8]) != 0 && NoZeroOctet(s[8..], n - 1) {
      forall k | 0 <= k < n
        ensures Number(s[8 * k..8 * k + 8]) != 0
      {
        if k > 0 {
          assert s[8..][8 * (k - 1)..8 * (k - 1) + 8] == s[8 * k..8 * k + 8];
        }
      }
    }
  }

  /** A text is unterminated exactly if all the octets it may fill are there and none is zero; if it cannot be read
      for any other reason, it is because the buffer ends. */
  lemma {:induction false} StringFails(s: seq<bit>, room: nat)
    ensures ReadString(s, room) == Failed(Unterminated) <==> |s| >= 8 * room && NoZeroOctet(s, room)
    ensures ReadString(s, room).Failed? ==> ReadString(s, room).error in {PastEnd, Unterminated}
    decreases room
  {
    hide NoZeroOctet;
    hide Number;
    if room == 0 {
      NothingIsNoZero(s);
    } else if |s| >= 8 {
      Powers();
      StringFails(s[8..], room - 1);
      if |s| >= 8 * room {
        NoZeroFirst(s, room);
      }
    }
  }

  lemma NothingIsNoZero(s: seq<bit>)
    ensures NoZeroOctet(s, 0)
  {
  }

  // ---- Reading with more bits behind ----

  /** More input can only turn a premature end into something else. */
  predicate Continues<T(==)>(short: Outcome<T>, long: Outcome<T>, more: seq<bit>) {
    match short
    case Ok(v, rest) => long == Ok(v, rest + more)
    case Failed(PastEnd) => true
    case Failed(e) => long == Failed(e)
  }

  lemma UintContinues(s: seq<bit>, n: int, more: seq<bit>)
    ensures Continues(ReadUint(s, n), ReadUint(s + more, n), more)
  {
    if 0 <= n <= |s| {
      assert (s + more)[..n] == s[..n] && (s + more)[n..] == s[n..] + more;
    }
  }

  lemma {:induction false} StringContinues(s: seq<bit>, room: nat, more: seq<bit>)
    ensures Continues(ReadString(s, room), ReadString(s + more, room), more)
    decreases room
  {
    UintContinues(s, 8, more);
    if room > 0 && ReadUint(s, 8).Ok? {
      StringContinues(ReadUint(s, 8).rest, room - 1, more);
    }
  }

  // ---- The cursor ----

  /** A string read in progress: `out` so far, `goal` in the end. */
  ghost predicate Reads(s: seq<bit>, room: nat, out: seq<byte>, goal: Outcome<seq<byte>>) {
    match ReadString(s, room)
    case Ok(t, rest) => goal == Ok(out + t, rest)
    case Failed(e) => goal == Failed(e)
  }

  lemma StartsReading(s: seq<bit>, goal: Outcome<seq<byte>>)
    requires goal == ReadCString(s)
    ensures Reads(s, MAX_STRING_LENGTH, [], goal)
  {
    var r := ReadString(s, MAX_STRING_LENGTH);
    assert r.Ok? ==> [] + r.value == r.value;
  }

  lemma ReadsOn(s: seq<bit>, room: nat, out: seq<byte>, goal: Outcome<seq<byte>>)
    requires room > 0 && Reads(s, room, out, goal)
    ensures match ReadUint(s, 8)
            case Failed(e) => goal == Failed(e)
            case Ok(c, rest) =>
              c < 256 && if c == 0 then goal == Ok(out, rest) else Reads(rest, room - 1, out + [c], goal)
  {
    Powers();
    var c := ReadUint(s, 8);
    assert out + [] == out;
    if c.Ok? && c.value != 0 {
      var later := ReadString(c.rest, room - 1);
      assert later.Ok? ==> out + ([c.value] + later.value) == (out + [c.value]) + later.value;
    }
  }

  lemma NoRoomLeft(s: seq<bit>, out: seq<byte>, goal: Outcome<seq<byte>>)
    requires Reads(s, 0, out, goal)
    ensures goal == Failed(Unterminated)
  {
  }

  datatype Field<T> = Got(value: T) | Bad(error: Error)

  /** A field read through the cursor is the field read from the remaining bits. */
  predicate Agrees<T(==)>(f: Field<T>, rest: seq<bit>, o: Outcome<T>) {
    match o
    case Ok(v, rest0) => f == Got(v) && rest == rest0
    case Failed(e) => f == Bad(e)
  }

  class BitReader {
    const buf: seq<byte>
    var cursor: nat

    ghost predicate Valid()
      reads this
    {
      cursor <= 8 * |buf|
    }

    ghost function Rest(): seq<bit>
      requires Valid()
      reads this
    {
      Bits(buf)[cursor..]
    }

    constructor (b: seq<byte>)
      ensures Valid() && Rest() == Bits(b)
    {
      buf := b;
      cursor := 0;
    }

    method ReadBit() returns (r: Field<bit>)
      requires Valid()
      modifies this
      ensures Valid()
      ensures old(Rest()) == [] ==> r == Bad(PastEnd) && Rest() == []
      ensures old(Rest()) != [] ==> r == Got(old(Rest())[0]) && Rest() == old(Rest())[1..]
    {
      var idx, off := cursor / 8, cursor % 8;
      if idx >= |buf| {
        return Bad(PastEnd);
      }
      r := Got(BitOf(buf[idx], off));
      cursor := cursor + 1;
    }

    method Uint(n: int) returns (r: Field<nat>)
      requires Valid()
      modifies this
      ensures Valid() && Agrees(r, Rest(), ReadUint(old(Rest()), n))
      ensures r == Bad(PastEnd) ==> Rest() == []
      ensures r == Bad(BadWidth) <==> n < 0 || n > 64
    {
      if n < 0 || n > MAX_WIDTH {
        return Bad(BadWidth);
      }
      ghost var s := Rest();
      var v := 0;
      var i := 0;
      while i < n
        invariant Valid() && 0 <= i <= n && i <= |s|
        invariant v == Number(s[..i]) && Rest() == s[i..]
      {
        var b := ReadBit();
        if b.Bad? {
          return Bad(b.error);
        }
        assert s[..i + 1][..i] == s[..i];
        v := 2 * v + b.value;
        i := i + 1;
      }
      return Got(v);
    }

    method Bool() returns (r: Field<bool>)
      requires Valid()
      modifies this
      ensures Valid() && Agrees(r, Rest(), ReadBool(old(Rest())))
    {
      var v := Uint(1);
      match v
      case Bad(e) => return Bad(e);
      case Got(n) => return Got(n == 1);
    }

    method CString() returns (r: Field<seq<byte>>)
      requires Valid()
      modifies this
      ensures Valid() && Agrees(r, Rest(), ReadCString(old(Rest())))
    {
      hide Reads;
      hide ReadUint;
      hide ReadCString;
      var out: seq<byte> := [];
      ghost var goal := ReadCString(Rest());
      StartsReading(Rest(), goal);
      while |out| < MAX_STRING_LENGTH
        invariant Valid() && |out| <= MAX_STRING_LENGTH
        invariant Reads(Rest(), MAX_STRING_LENGTH - |out|, out, goal)
      {
        ReadsOn(Rest(), MAX_STRING_LENGTH - |out|, out, goal);
        var c := Uint(8);
        if c.Bad? {
          return Bad(c.error);
        }
        if c.value == 0 {
          return Got(out);
        }
        Powers();
        out := out + [c.value];
      }
      NoRoomLeft(Rest(), out, goal);
      return Bad(Unterminated);
    }
  }
}
