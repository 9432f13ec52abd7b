/**
 The 16-bit header checksum: a MurmurHash2 variant over the little-endian header followed by
 the body. The fold over buffers is written once, for any word type; `GO` instantiates it with
 the recorder's wrapping 32-bit arithmetic. Proved: the two buffers hash like their concatenation,
 and the 32-bit state loses nothing until the last step truncates it.
 */
module Checksums {
  import opened Bytes

  const HEADER_SIZE := 12

  function HeaderOctets(bodyLen: uint32, seqNo: uint16, echoSeq: uint16, cmdType: uint16): (r: seq<byte>)
    ensures |r| == HEADER_SIZE
  {
    PutLE32(bodyLen) + (PutLE16(seqNo) + PutLE16(echoSeq)) + (PutLE16(cmdType) + [0, 0])
  }

  /** Twelve octets that hold these four numbers, the least significant octet of each first, and then nothing. */
  predicate LeastFirst(h: seq<byte>, bodyLen: uint32, seqNo: uint16, echoSeq: uint16, cmdType: uint16) {
    && |h| == 12
    && bodyLen == h[0] as int + 0x100 * h[1] as int + 0x1_0000 * h[2] as int + 0x100_0000 * h[3] as int
    && seqNo == h[4] as int + 0x100 * h[5] as int && echoSeq == h[6] as int + 0x100 * h[7] as int
    && cmdType == h[8] as int + 0x100 * h[9] as int
    && h[10] == 0 && h[11] == 0
  }

  /** The header is hashed least significant octet first, although the wire carries it the other way round. */
  lemma HeaderIsLeastFirst(bodyLen: uint32, seqNo: uint16, echoSeq: uint16, cmdType: uint16)
    ensures LeastFirst(HeaderOctets(bodyLen, seqNo, echoSeq, cmdType), bodyLen, seqNo, echoSeq, cmdType)
  {
    Split32(bodyLen);
  }

  function Overwrite(s: seq<byte>, at: nat, w: seq<byte>): seq<byte>
    requires at + |w| <= |s|
  {
    s[..at] + w + s[at + |w|..]
  }

  function Zeros(n: nat): (r: seq<byte>)
    ensures |r| == n
  {
    seq(n, _ => 0)
  }

  /** Filling in the first of the octets that are still zero. */
  lemma PutNext(p: seq<byte>, w: seq<byte>, n: nat)
    requires |w| <= n
    ensures Overwrite(p + Zeros(n), |p|, w) == (p + w) + Zeros(n - |w|)
  {
  }

  lemma Regrouped(a: seq<byte>, b: seq<byte>, c: seq<byte>, d: seq<byte>, z: seq<byte>)
    ensures (((a + b) + c) + d) + z == a + (b + c) + (d + z)
  {
  }

  method PutUint16LE(b: array<byte>, at: nat, v: uint16)
    requires at + 2 <= b.Length
    modifies b
    ensures b[..] == Overwrite(old(b[..]), at, PutLE16(v))
  {
    b[at], b[at + 1] := v % 0x100, v / 0x100;
  }

  method PutUint32LE(b: array<byte>, at: nat, v: uint32)
    requires at + 4 <= b.Length
    modifies b
    ensures b[..] == Overwrite(old(b[..]), at, PutLE32(v))
  {
    b[at], b[at + 1] := v % 0x100, v / 0x100 % 0x100;
    b[at + 2], b[at + 3] := v / 0x1_0000 % 0x100, v / 0x100_0000;
  }

  method FillHeader(bodyLen: uint32, seqNo: uint16, echoSeq: uint16, cmdType: uint16) returns (hdr: array<byte>)
    ensures fresh(hdr) && hdr[..] == HeaderOctets(bodyLen, seqNo, echoSeq, cmdType)
    ensures LeastFirst(hdr[..], bodyLen, seqNo, echoSeq, cmdType)
  {
    HeaderIsLeastFirst(bodyLen, seqNo, echoSeq, cmdType);
    hide LeastFirst;
    hide PutLE32;
    hide PutLE16;
    hide Overwrite;
    hdr := new byte[12](_ => 0);
    assert hdr[..] == [] + Zeros(12) && [] + PutLE32(bodyLen) == PutLE32(bodyLen);
    PutUint32LE(hdr, 0, bodyLen);
    PutNext([], PutLE32(bodyLen), 12);
    PutUint16LE(hdr, 4, seqNo);
    PutNext(PutLE32(bodyLen), PutLE16(seqNo), 8);
    PutUint16LE(hdr, 6, echoSeq);
    PutNext(PutLE32(bodyLen) + PutLE16(seqNo), PutLE16(echoSeq), 6);
    PutUint16LE(hdr, 8, cmdType);
    PutNext(PutLE32(bodyLen) + PutLE16(seqNo) + PutLE16(echoSeq), PutLE16(cmdType), 4);
    assert Zeros(2) == [0, 0];
    Regrouped(PutLE32(bodyLen), PutLE16(seqNo), PutLE16(echoSeq), PutLE16(cmdType), [0, 0]);
  }

  /** A hash that absorbs four octets at a time, folds in a tail of at most three, and finishes. */
  datatype Hash<!W(!new)> = Hash(start: W, absorb: (W, seq<byte>) -> W, tail: (W, seq<byte>) -> W, finish: W -> W) {

    function Fold(h: W, d: seq<byte>): W
      decreases |d|
    {
      if |d| >= 4 then Fold(absorb(h, d[..4]), d[4..]) else tail(h, d)
    }

    /** The state after a header and a body, just before it is truncated. */
    function Over(header: seq<byte>, body: seq<byte>): W { finish(Fold(Fold(start, header), body)) }

    function State(bodyLen: uint32, seqNo: uint16, echoSeq: uint16, cmdType: uint16, body: seq<byte>): W {
      Over(HeaderOctets(bodyLen, seqNo, echoSeq, cmdType), body)
    }

    /** The loops shared by the recorder and the reference: header first, then body. */
    method Digest(header: seq<byte>, body: seq<byte>) returns (h: W)
      ensures h == Over(header, body)
    {
      h := start;
      var buffers := [header, body];
      for pass := 0 to 2
        invariant pass == 0 ==> h == start
        invariant pass == 1 ==> h == Fold(start, buffers[0])
        invariant pass == 2 ==> h == Fold(Fold(start, buffers[0]), body)
      {
        var data := buffers[pass];
        ghost var entry := h;
        var i := 0;
        while i + 4 <= |data|
          invariant 0 <= i <= |data|
          invariant Fold(h, data[i..]) == Fold(entry, data)
        {
          assert data[i..][..4] == data[i..i + 4] && data[i..][4..] == data[i + 4..];
          h := absorb(h, data[i..i + 4]);
          i := i + 4;
        }
        h := tail(h, data[i..]);
      }
      h := finish(h);
    }

    // ---- One fold over header and body together ----

    ghost predicate NoEmptyTail() { forall h :: tail(h, []) == h }

    lemma {:induction false} FoldConcat(h: W, a: seq<byte>, b: seq<byte>)
      requires NoEmptyTail() && |a| % 4 == 0
      ensures Fold(h, a + b) == Fold(Fold(h, a), b)
      decreases |a|
    {
      if a == [] {
        assert a + b == b;
      } else {
        assert (a + b)[..4] == a[..4] && (a + b)[4..] == a[4..] + b;
        FoldConcat(absorb(h, a[..4]), a[4..], b);
      }
    }

    /** The 12-octet header leaves no tail, so the two buffers hash like their concatenation. */
    lemma StateIsSingleFold(bodyLen: uint32, seqNo: uint16, echoSeq: uint16, cmdType: uint16, body: seq<byte>)
      requires NoEmptyTail()
      ensures State(bodyLen, seqNo, echoSeq, cmdType, body)
           == finish(Fold(start, HeaderOctets(bodyLen, seqNo, echoSeq, cmdType) + body))
    {
      FoldConcat(start, HeaderOctets(bodyLen, seqNo, echoSeq, cmdType), body);
    }

    // ---- Nothing is lost before the truncation ----

    ghost predicate Lossless() {
      && NoEmptyTail()
      && (forall g, h, w | |w| == 4 && absorb(g, w) == absorb(h, w) :: g == h)
      && (forall h, v, w | |v| == |w| == 4 && absorb(h, v) == absorb(h, w) :: v == w)
      && (forall g, h, t | |t| < 4 && tail(g, t) == tail(h, t) :: g == h)
      && (forall h, s, t | |s| == |t| < 4 && tail(h, s) == tail(h, t) :: s == t)
      && (forall g, h | finish(g) == finish(h) :: g == h)
    }

    lemma {:induction false} FoldInjectiveInState(g: W, h: W, d: seq<byte>)
      requires Lossless() && Fold(g, d) == Fold(h, d)
      ensures g == h
      decreases |d|
    {
      if |d| >= 4 {
        FoldInjectiveInState(absorb(g, d[..4]), absorb(h, d[..4]), d[4..]);
      }
    }

    lemma FoldStep(h: W, w: seq<byte>, post: seq<byte>)
      requires |w| == 4
      ensures Fold(h, w + post) == Fold(absorb(h, w), post)
    {
      assert (w + post)[..4] == w && (w + post)[4..] == post;
    }

    lemma FoldInjectiveInWord(h: W, pre: seq<byte>, v: seq<byte>, w: seq<byte>, post: seq<byte>)
      requires Lossless() && |pre| % 4 == 0 && |v| == |w| == 4
      requires Fold(h, pre + v + post) == Fold(h, pre + w + post)
      ensures v == w
    {
      hide Fold;
      assert pre + v + post == pre + (v + post) && pre + w + post == pre + (w + post);
      FoldConcat(h, pre, v + post);
      FoldConcat(h, pre, w + post);
      var g := Fold(h, pre);
      FoldStep(g, v, post);
      FoldStep(g, w, post);
      FoldInjectiveInState(absorb(g, v), absorb(g, w), post);
    }

    /** Changing one aligned word of the body always changes the state. */
    lemma StateInjectiveInBodyWord(bodyLen: uint32, seqNo: uint16, echoSeq: uint16, cmdType: uint16,
                                   pre: seq<byte>, v: seq<byte>, w: seq<byte>, post: seq<byte>)
      requires Lossless() && |pre| % 4 == 0 && |v| == |w| == 4
      requires State(bodyLen, seqNo, echoSeq, cmdType, pre + v + post)
               == State(bodyLen, seqNo, echoSeq, cmdType, pre + w + post)
      ensures v == w
    {
      FoldInjectiveInWord(Fold(start, HeaderOctets(bodyLen, seqNo, echoSeq, cmdType)), pre, v, w, post);
    }

    /** Changing the one to three octets after the last whole word always changes the state. */
    lemma StateInjectiveInTail(bodyLen: uint32, seqNo: uint16, echoSeq: uint16, cmdType: uint16,
                               pre: seq<byte>, s: seq<byte>, t: seq<byte>)
      requires Lossless() && |pre| % 4 == 0 && |s| == |t| < 4
      requires State(bodyLen, seqNo, echoSeq, cmdType, pre + s) == State(bodyLen, seqNo, echoSeq, cmdType, pre + t)
      ensures s == t
    {
      var h := Fold(start, HeaderOctets(bodyLen, seqNo, echoSeq, cmdType));
      FoldConcat(h, pre, s);
      FoldConcat(h, pre, t);
    }

    /** With the body fixed, headers that agree in two of their three words and share a state are equal. */
    lemma StateInjectiveInHeaderWord(lenA: uint32, seqA: uint16, echoA: uint16, cmdA: uint16,
                                     lenB: uint32, seqB: uint16, echoB: uint16, cmdB: uint16, body: seq<byte>)
      requires Lossless()
      requires State(lenA, seqA, echoA, cmdA, body) == State(lenB, seqB, echoB, cmdB, body)
      requires || (seqA == seqB && echoA == echoB && cmdA == cmdB)
               || (lenA == lenB && cmdA == cmdB)
               || (lenA == lenB && seqA == seqB && echoA == echoB)
      ensures lenA == lenB && seqA == seqB && echoA == echoB && cmdA == cmdB
    {
      hide Fold;
      hide PutLE32;
      hide PutLE16;
      var a, b := HeaderOctets(lenA, seqA, echoA, cmdA), HeaderOctets(lenB, seqB, echoB, cmdB);
      FoldInjectiveInState(Fold(start, a), Fold(start, b), body);
      if seqA == seqB && echoA == echoB && cmdA == cmdB {
        var post := PutLE16(seqA) + PutLE16(echoA) + (PutLE16(cmdA) + [0, 0]);
        assert a == [] + PutLE32(lenA) + post && b == [] + PutLE32(lenB) + post;
        FoldInjectiveInWord(start, [], PutLE32(lenA), PutLE32(lenB), post);
        LE32Injective(lenA, lenB);
      } else if lenA == lenB && cmdA == cmdB {
        var v, w := PutLE16(seqA) + PutLE16(echoA), PutLE16(seqB) + PutLE16(echoB);
        FoldInjectiveInWord(start, PutLE32(lenA), v, w, PutLE16(cmdA) + [0, 0]);
        assert v[..2] == PutLE16(seqA) && v[2..] == PutLE16(echoA);
        assert w[..2] == PutLE16(seqB) && w[2..] == PutLE16(echoB);
        LE16Injective(seqA, seqB);
        LE16Injective(echoA, echoB);
      } else {
        var pre := PutLE32(lenA) + (PutLE16(seqA) + PutLE16(echoA));
        var v, w := PutLE16(cmdA) + [0, 0], PutLE16(cmdB) + [0, 0];
        assert a == pre + v + [] && b == pre + w + [];
        FoldInjectiveInWord(start, pre, v, w, []);
        assert v[..2] == PutLE16(cmdA) && w[..2] == PutLE16(cmdB);
        LE16Injective(cmdA, cmdB);
      }
    }
  }

  // ---- Parity of two instances ----

  /** The second hash computes the first one's states, each embedded in a larger word. */
  ghost predicate Simulates<V(!new), W(!new)>(wide: Hash<W>, narrow: Hash<V>, embed: V -> W) {
    && wide.start == embed(narrow.start)
    && (forall h, w | |w| == 4 :: wide.absorb(embed(h), w) == embed(narrow.absorb(h, w)))
    && (forall h, t | |t| < 4 :: wide.tail(embed(h), t) == embed(narrow.tail(h, t)))
    && (forall h :: wide.finish(embed(h)) == embed(narrow.finish(h)))
  }

  lemma {:induction false} FoldSimulates<V(!new), W(!new)>(wide: Hash<W>, narrow: Hash<V>, embed: V -> W,
                                                              h: V, d: seq<byte>)
    requires Simulates(wide, narrow, embed)
    ensures wide.Fold(embed(h), d) == embed(narrow.Fold(h, d))
    decreases |d|
  {
    if |d| >= 4 {
      FoldSimulates(wide, narrow, embed, narrow.absorb(h, d[..4]), d[4..]);
    }
  }

  lemma OverSimulates<V(!new), W(!new)>(wide: Hash<W>, narrow: Hash<V>, embed: V -> W, header: seq<byte>,
                                        body: seq<byte>)
    requires Simulates(wide, narrow, embed)
    ensures wide.Over(header, body) == embed(narrow.Over(header, body))
  {
    FoldSimulates(wide, narrow, embed, narrow.start, header);
    FoldSimulates(wide, narrow, embed, narrow.Fold(narrow.start, header), body);
  }

  // ---- Octets as bits ----

  function Value(v: bv8): (b: byte) { v as int }

  lemma ValueInjective(v: bv8, w: bv8)
    requires Value(v) == Value(w)
    ensures v == w
  {
    assert (Value(v) as bv8) == v && (Value(w) as bv8) == w;
  }

  lemma ValueSuccessor(v: bv8)
    requires v != 0xff
    ensures Value(v + 1) == Value(v) + 1
  {
  }

  lemma {:induction false} ValueOnto(n: byte)
    ensures exists v :: Value(v) == n
    decreases n
  {
    assert Value(0) == 0 && Value(0xff) == 0xff;
    if n > 0 {
      ValueOnto(n - 1);
      var v :| Value(v) == n - 1;
      ValueSuccessor(v);
    }
  }

  lemma ValueUnique(n: byte)
    ensures forall v, w | Value(v) == n && Value(w) == n :: v == w
  {
    forall v, w | Value(v) == n && Value(w) == n
      ensures v == w
    {
      ValueInjective(v, w);
    }
  }

  /** The eight bits of an octet; distinct octets have distinct bits because `Value` recovers the octet. */
  function Bits(b: byte): (v: bv8)
    ensures Value(v) == b
  {
    ValueOnto(b);
    ValueUnique(b);
    var v :| Value(v) == b;
    v
  }

  // ---- The recorder's words: 32 bits, wrapping ----
  // Each machine operation is a function of its own, so that proofs treat it as one symbol.

  function Mul(x: bv32): bv32 { x * 0x5bd1e995 }

  function Xor(x: bv32, y: bv32): bv32 { x ^ y }

  function XorShift24(k: bv32): bv32 { k ^ (k >> 24) }

  function XorShift13(h: bv32): bv32 { h ^ (h >> 13) }

  function XorShift15(h: bv32): bv32 { h ^ (h >> 15) }

  function Word(a: bv8, b: bv8, c: bv8, d: bv8): bv32 {
    (a as bv32) | ((b as bv32) << 8) | ((c as bv32) << 16) | ((d as bv32) << 24)
  }

  function Scramble(k: bv32): bv32 { Mul(XorShift24(Mul(k))) }

  function Absorb(h: bv32, w: seq<byte>): bv32 {
    if |w| == 4 then Xor(Mul(h), Scramble(Word(Bits(w[0]), Bits(w[1]), Bits(w[2]), Bits(w[3])))) else h
  }

  // The cases of the tail fall through, largest first; each mixes in what its successors do.
  function Mix1(h: bv32, a: bv8): bv32 { h ^ (a as bv32) }

  function Mix2(h: bv32, a: bv8, b: bv8): bv32 { (h ^ ((b as bv32) << 8)) ^ (a as bv32) }

  function Mix3(h: bv32, a: bv8, b: bv8, c: bv8): bv32 {
    ((h ^ ((c as bv32) << 16)) ^ ((b as bv32) << 8)) ^ (a as bv32)
  }

  /** One multiplication for the whole tail, unlike textbook MurmurHash2. */
  function Tail(h: bv32, t: seq<byte>): bv32 {
    if |t| == 3 then Mul(Mix3(h, Bits(t[0]), Bits(t[1]), Bits(t[2])))
    else if |t| == 2 then Mul(Mix2(h, Bits(t[0]), Bits(t[1])))
    else if |t| == 1 then Mul(Mix1(h, Bits(t[0])))
    else h
  }

  function Finish(h: bv32): bv32 { XorShift15(Mul(XorShift13(h))) }

  const GO := Hash((12 as bv32) ^ 0x1337533d, Absorb, Tail, Finish)

  function HighOctet(b: bv16): bv8 { (b >> 8) as bv8 }

  function LowOctet(b: bv16): bv8 { (b & 0xff) as bv8 }

  function Value16(b: bv16): uint16 { GetBE16(Value(HighOctet(b)), Value(LowOctet(b))) }

  function Truncate(h: bv32): bv16 { (h & 0xffff) as bv16 }

  function Sum(bodyLen: uint32, seqNo: uint16, echoSeq: uint16, cmdType: uint16, body: seq<byte>): uint16 {
    Value16(Truncate(GO.State(bodyLen, seqNo, echoSeq, cmdType, body)))
  }

  method Checksum(bodyLen: uint32, seqNo: uint16, echoSeq: uint16, cmdType: uint16, body: seq<byte>)
    returns (sum: uint16)
    ensures sum == Sum(bodyLen, seqNo, echoSeq, cmdType, body)
  {
    var hdr := FillHeader(bodyLen, seqNo, echoSeq, cmdType);
    var h := GO.Digest(hdr[..], body);
    sum := Value16(Truncate(h));
  }

  // ---- Every machine operation on the recorder's words can be undone ----

  /** 0xe59b19bd is the multiplier's inverse modulo 2^32. */
  function Unmul(p: bv32): bv32 { p * 0xe59b19bd }

  function Unshift24(p: bv32): bv32 { p ^ (p >> 24) }

  function Unshift13(p: bv32): bv32 { p ^ (p >> 13) ^ (p >> 26) }

  function Unshift15(p: bv32): bv32 { p ^ (p >> 15) ^ (p >> 30) }

  lemma UndoMul(x: bv32)
    ensures Unmul(Mul(x)) == x
  {
    assert Unmul(x * 0x5bd1e995) == x;
  }

  lemma UndoXorShift24(x: bv32)
    ensures Unshift24(XorShift24(x)) == x
  {
    assert Unshift24(x ^ (x >> 24)) == x;
  }

  lemma UndoXorShift13(x: bv32)
    ensures Unshift13(XorShift13(x)) == x
  {
    assert Unshift13(x ^ (x >> 13)) == x;
  }

  lemma UndoXorShift15(x: bv32)
    ensures Unshift15(XorShift15(x)) == x
  {
    assert Unshift15(x ^ (x >> 15)) == x;
  }

  lemma UndoXor(a: bv32, x: bv32)
    ensures Xor(a, Xor(a, x)) == x && Xor(Xor(x, a), a) == x
  {
    assert Xor(a, a ^ x) == x && Xor(x ^ a, a) == x;
  }

  lemma ScrambleInjective(x: bv32, y: bv32)
    requires Scramble(x) == Scramble(y)
    ensures x == y
  {
    UndoMul(x);
    UndoMul(y);
    UndoXorShift24(Mul(x));
    UndoXorShift24(Mul(y));
    UndoMul(XorShift24(Mul(x)));
    UndoMul(XorShift24(Mul(y)));
  }

  lemma WordInjective(a: bv8, b: bv8, c: bv8, d: bv8, p: bv8, q: bv8, r: bv8, s: bv8)
    requires Word(a, b, c, d) == Word(p, q, r, s)
    ensures a == p && b == q && c == r && d == s
  {
  }

  lemma AbsorbInjectiveInState(g: bv32, h: bv32, w: seq<byte>)
    requires |w| == 4 && Absorb(g, w) == Absorb(h, w)
    ensures g == h
  {
    var k := Scramble(Word(Bits(w[0]), Bits(w[1]), Bits(w[2]), Bits(w[3])));
    UndoXor(k, Mul(g));
    UndoXor(k, Mul(h));
    UndoMul(g);
    UndoMul(h);
  }

  lemma AbsorbInjectiveInWord(h: bv32, v: seq<byte>, w: seq<byte>)
    requires |v| == |w| == 4 && Absorb(h, v) == Absorb(h, w)
    ensures v == w
  {
    var j, k := Word(Bits(v[0]), Bits(v[1]), Bits(v[2]), Bits(v[3])),
      Word(Bits(w[0]), Bits(w[1]), Bits(w[2]), Bits(w[3]));
    UndoXor(Mul(h), Scramble(j));
    UndoXor(Mul(h), Scramble(k));
    ScrambleInjective(j, k);
    WordInjective(Bits(v[0]), Bits(v[1]), Bits(v[2]), Bits(v[3]), Bits(w[0]), Bits(w[1]), Bits(w[2]), Bits(w[3]));
    assert v[0] == w[0] && v[1] == w[1] && v[2] == w[2] && v[3] == w[3];
  }

  lemma FinishInjective(g: bv32, h: bv32)
    requires Finish(g) == Finish(h)
    ensures g == h
  {
    UndoXorShift15(Mul(XorShift13(g)));
    UndoXorShift15(Mul(XorShift13(h)));
    UndoMul(XorShift13(g));
    UndoMul(XorShift13(h));
    UndoXorShift13(g);
    UndoXorShift13(h);
  }

  // Mixing the same octets in again, and mixing the state in again, both cancel.
  lemma UndoMix(h: bv32, a: bv8, b: bv8, c: bv8)
    ensures Mix1(Mix1(h, a), a) == h && Mix2(Mix2(h, a, b), a, b) == h && Mix3(Mix3(h, a, b, c), a, b, c) == h
  {
    assert Mix1(h ^ (a as bv32), a) == h;
    assert Mix2((h ^ ((b as bv32) << 8)) ^ (a as bv32), a, b) == h;
    assert Mix3(((h ^ ((c as bv32) << 16)) ^ ((b as bv32) << 8)) ^ (a as bv32), a, b, c) == h;
  }

  lemma StateCancels1(h: bv32, a: bv8)
    ensures Xor(h, Mix1(h, a)) == Mix1(0, a)
  {
    assert Xor(h, h ^ (a as bv32)) == (a as bv32);
  }

  lemma StateCancels2(h: bv32, a: bv8, b: bv8)
    ensures Xor(h, Mix2(h, a, b)) == Mix2(0, a, b)
  {
    assert Xor(h, (h ^ ((b as bv32) << 8)) ^ (a as bv32)) == ((b as bv32) << 8) ^ (a as bv32);
  }

  lemma StateCancels3(h: bv32, a: bv8, b: bv8, c: bv8)
    ensures Xor(h, Mix3(h, a, b, c)) == Mix3(0, a, b, c)
  {
    assert Xor(h, ((h ^ ((c as bv32) << 16)) ^ ((b as bv32) << 8)) ^ (a as bv32))
      == (((c as bv32) << 16) ^ ((b as bv32) << 8)) ^ (a as bv32);
  }

  lemma OctetsApart1(a: bv8, p: bv8)
    requires Mix1(0, a) == Mix1(0, p)
    ensures a == p
  {
  }

  lemma OctetsApart2(a: bv8, b: bv8, p: bv8, q: bv8)
    requires Mix2(0, a, b) == Mix2(0, p, q)
    ensures a == p && b == q
  {
  }

  lemma OctetsApart3(a: bv8, b: bv8, c: bv8, p: bv8, q: bv8, r: bv8)
    requires Mix3(0, a, b, c) == Mix3(0, p, q, r)
    ensures a == p && b == q && c == r
  {
  }

  lemma TailInjectiveInState(g: bv32, h: bv32, t: seq<byte>)
    requires |t| < 4 && Tail(g, t) == Tail(h, t)
    ensures g == h
  {
    if |t| == 3 {
      UndoMul(Mix3(g, Bits(t[0]), Bits(t[1]), Bits(t[2])));
      UndoMul(Mix3(h, Bits(t[0]), Bits(t[1]), Bits(t[2])));
      UndoMix(g, Bits(t[0]), Bits(t[1]), Bits(t[2]));
      UndoMix(h, Bits(t[0]), Bits(t[1]), Bits(t[2]));
    } else if |t| == 2 {
      UndoMul(Mix2(g, Bits(t[0]), Bits(t[1])));
      UndoMul(Mix2(h, Bits(t[0]), Bits(t[1])));
      UndoMix(g, Bits(t[0]), Bits(t[1]), 0);
      UndoMix(h, Bits(t[0]), Bits(t[1]), 0);
    } else if |t| == 1 {
      UndoMul(Mix1(g, Bits(t[0])));
      UndoMul(Mix1(h, Bits(t[0])));
      UndoMix(g, Bits(t[0]), 0, 0);
      UndoMix(h, Bits(t[0]), 0, 0);
    }
  }

  lemma TailInjectiveInTail(h: bv32, s: seq<byte>, t: seq<byte>)
    requires |s| == |t| < 4 && Tail(h, s) == Tail(h, t)
    ensures s == t
  {
    if |t| == 3 {
      UndoMul(Mix3(h, Bits(s[0]), Bits(s[1]), Bits(s[2])));
      UndoMul(Mix3(h, Bits(t[0]), Bits(t[1]), Bits(t[2])));
      StateCancels3(h, Bits(s[0]), Bits(s[1]), Bits(s[2]));
      StateCancels3(h, Bits(t[0]), Bits(t[1]), Bits(t[2]));
      OctetsApart3(Bits(s[0]), Bits(s[1]), Bits(s[2]), Bits(t[0]), Bits(t[1]), Bits(t[2]));
    } else if |t| == 2 {
      UndoMul(Mix2(h, Bits(s[0]), Bits(s[1])));
      UndoMul(Mix2(h, Bits(t[0]), Bits(t[1])));
      StateCancels2(h, Bits(s[0]), Bits(s[1]));
      StateCancels2(h, Bits(t[0]), Bits(t[1]));
      OctetsApart2(Bits(s[0]), Bits(s[1]), Bits(t[0]), Bits(t[1]));
    } else if |t| == 1 {
      UndoMul(Mix1(h, Bits(s[0])));
      UndoMul(Mix1(h, Bits(t[0])));
      StateCancels1(h, Bits(s[0]));
      StateCancels1(h, Bits(t[0]));
      OctetsApart1(Bits(s[0]), Bits(t[0]));
    }
  }

  /** The recorder's hash loses nothing, so every injectivity result above applies to it. */
  lemma GoIsLossless()
    ensures GO.Lossless()
  {
    forall g, h, w | |w| == 4 && Absorb(g, w) == Absorb(h, w)
      ensures g == h
    {
      AbsorbInjectiveInState(g, h, w);
    }
    forall h, v, w | |v| == |w| == 4 && Absorb(h, v) == Absorb(h, w)
      ensures v == w
    {
      AbsorbInjectiveInWord(h, v, w);
    }
    forall g, h, t | |t| < 4 && Tail(g, t) == Tail(h, t)
      ensures g == h
    {
      TailInjectiveInState(g, h, t);
    }
    forall h, s, t | |s| == |t| < 4 && Tail(h, s) == Tail(h, t)
      ensures s == t
    {
      TailInjectiveInTail(h, s, t);
    }
    forall g, h | Finish(g) == Finish(h)
      ensures g == h
    {
      FinishInjective(g, h);
    }
  }
}
