/**
 The checksum of the Python reference, on Python's own unbounded integers, and its parity with the
 recorder's 32-bit words. The reference's packet builder is compared with the encoder as well.
 */
module References {
  import opened Bytes
  import opened Checksums
  import BitFields
  import Framing
  import opened Options

  // ---- Python's integer operators ----
  // Shifting doubles or halves, `x & (2**k - 1)` is a remainder, and `^` and `|` work digit by digit,
  // with no highest digit.

  function Shl(k: nat, n: nat): nat
    decreases n
  {
    if n == 0 then k else Shl(2 * k, n - 1)
  }

  function Shr(k: nat, n: nat): nat
    decreases n
  {
    if n == 0 then k else Shr(k / 2, n - 1)
  }

  function BitXor(a: nat, b: nat): nat
    decreases a + b
  {
    if a == 0 && b == 0 then 0 else 2 * BitXor(a / 2, b / 2) + (a % 2 + b % 2) % 2
  }

  function BitOr(a: nat, b: nat): nat
    decreases a + b
  {
    if a == 0 && b == 0 then 0 else 2 * BitOr(a / 2, b / 2) + if a % 2 == 1 || b % 2 == 1 then 1 else 0
  }

  const M: nat := 0x5bd1e995
  const SEED: nat := 0x1337533d
  const LIMIT: nat := 0x1_0000_0000

  function Mask(p: nat): nat { p % LIMIT }

  function XorShift(k: nat, n: nat): nat { BitXor(k, Shr(k, n)) }

  /** Four octets, least significant first. */
  function PyWord(a: nat, b: nat, c: nat, d: nat): nat {
    BitOr(BitOr(BitOr(a, Shl(b, 8)), Shl(c, 16)), Shl(d, 24))
  }

  function PyScramble(k: nat): nat { Mask(XorShift(Mask(k * M), 24) * M) }

  /** The reference masks after the exclusive-or rather than before it. */
  function PyAbsorb(h: nat, w: seq<byte>): nat {
    if |w| == 4 then Mask(BitXor(h * M, PyScramble(PyWord(w[0], w[1], w[2], w[3])))) else h
  }

  function PyTail(h: nat, t: seq<byte>): nat {
    if |t| == 3 then Mask(BitXor(BitXor(BitXor(h, Shl(t[2], 16)), Shl(t[1], 8)), t[0]) * M)
    else if |t| == 2 then Mask(BitXor(BitXor(h, Shl(t[1], 8)), t[0]) * M)
    else if |t| == 1 then Mask(BitXor(h, t[0]) * M)
    else h
  }

  function PyFinish(h: nat): nat { XorShift(Mask(XorShift(h, 13) * M), 15) }

  const PYTHON := Hash(Mask(BitXor(12, SEED)), PyAbsorb, PyTail, PyFinish)

  // Packing a number into k octets, the least or the most significant first.

  function Least(v: nat, k: nat): (r: seq<byte>)
    ensures |r| == k
    decreases k
  {
    if k == 0 then [] else [v % 0x100] + Least(v / 0x100, k - 1)
  }

  function Most(v: nat, k: nat): (r: seq<byte>)
    ensures |r| == k
    decreases k
  {
    if k == 0 then [] else Most(v / 0x100, k - 1) + [v % 0x100]
  }

  /** The header the reference hashes. */
  function Packed(bodyLen: uint32, sendCounter: uint16, echo: uint16, pktType: uint16): seq<byte> {
    Least(bodyLen, 4) + Least(sendCounter, 2) + Least(echo, 2) + Least(pktType, 2) + [0, 0]
  }

  function ReferenceSum(bodyLen: uint32, sendCounter: uint16, echo: uint16, pktType: uint16, body: seq<byte>): uint16 {
    PYTHON.Over(Packed(bodyLen, sendCounter, echo, pktType), body) % 0x1_0000
  }

  // ---- The integer a 32-bit word stands for ----
  // As with the recorder's words, each machine operation is a function of its own.

  function Half(x: bv32): bv32 { x >> 1 }

  function Odd(x: bv32): nat { if x & 1 == 1 then 1 else 0 }

  /** The number the n lowest bits stand for. */
  function Low(x: bv32, n: nat): nat { if n == 0 then 0 else 2 * Low(Half(x), n - 1) + Odd(x) }

  function Embed(x: bv32): nat { Low(x, 32) }

  lemma OddIsDigit(x: bv32)
    ensures Odd(x) < 2
  {
  }

  lemma {:induction false} LowBound(x: bv32, n: nat)
    ensures Low(x, n) < BitFields.Pow2(n)
    decreases n
  {
    hide Half;
    hide Odd;
    if n > 0 {
      OddIsDigit(x);
      LowBound(Half(x), n - 1);
    }
  }

  lemma Fits32()
    ensures BitFields.Pow2(16) == 0x1_0000 && BitFields.Pow2(32) == LIMIT
  {
    BitFields.Powers();
    BitFields.PowerOfSum(8, 8);
    BitFields.PowerOfSum(16, 16);
  }

  lemma EmbedBound(x: bv32)
    ensures Embed(x) < LIMIT
  {
    LowBound(x, 32);
    Fits32();
  }

  // ---- Exclusive or, and or ----

  function Or32(x: bv32, y: bv32): bv32 { x | y }

  lemma XorBits(x: bv32, y: bv32)
    ensures Half(Xor(x, y)) == Xor(Half(x), Half(y))
    ensures Odd(Xor(x, y)) == (Odd(x) + Odd(y)) % 2
  {
  }

  lemma OrBits(x: bv32, y: bv32)
    ensures Half(Or32(x, y)) == Or32(Half(x), Half(y))
    ensures Odd(Or32(x, y)) == if Odd(x) == 1 || Odd(y) == 1 then 1 else 0
  {
  }

  lemma BitXorStep(a: nat, b: nat, p: nat, q: nat)
    requires p < 2 && q < 2
    ensures BitXor(2 * a + p, 2 * b + q) == 2 * BitXor(a, b) + (p + q) % 2
  {
    assert (2 * a + p) / 2 == a && (2 * b + q) / 2 == b;
  }

  lemma BitOrStep(a: nat, b: nat, p: nat, q: nat)
    requires p < 2 && q < 2
    ensures BitOr(2 * a + p, 2 * b + q) == 2 * BitOr(a, b) + if p == 1 || q == 1 then 1 else 0
  {
    assert (2 * a + p) / 2 == a && (2 * b + q) / 2 == b;
  }

  lemma OfNothing()
    ensures BitXor(0, 0) == 0 && BitOr(0, 0) == 0
  {
  }

  lemma {:induction false} LowXor(x: bv32, y: bv32, n: nat)
    ensures Low(Xor(x, y), n) == BitXor(Low(x, n), Low(y, n))
    decreases n
  {
    hide Xor;
    hide Half;
    hide Odd;
    hide BitXor;
    if n > 0 {
      XorBits(x, y);
      LowXor(Half(x), Half(y), n - 1);
      OddIsDigit(x);
      OddIsDigit(y);
      BitXorStep(Low(Half(x), n - 1), Low(Half(y), n - 1), Odd(x), Odd(y));
    } else {
      OfNothing();
    }
  }

  lemma {:induction false} LowOr(x: bv32, y: bv32, n: nat)
    ensures Low(Or32(x, y), n) == BitOr(Low(x, n), Low(y, n))
    decreases n
  {
    hide Or32;
    hide Half;
    hide Odd;
    hide BitOr;
    if n > 0 {
      OrBits(x, y);
      LowOr(Half(x), Half(y), n - 1);
      OddIsDigit(x);
      OddIsDigit(y);
      BitOrStep(Low(Half(x), n - 1), Low(Half(y), n - 1), Odd(x), Odd(y));
    } else {
      OfNothing();
    }
  }

  lemma XorEmbeds(x: bv32, y: bv32)
    ensures Embed(Xor(x, y)) == BitXor(Embed(x), Embed(y))
  {
    LowXor(x, y, 32);
  }

  lemma OrEmbeds(x: bv32, y: bv32)
    ensures Embed(Or32(x, y)) == BitOr(Embed(x), Embed(y))
  {
    LowOr(x, y, 32);
  }

  /** Masking after an exclusive or or before it is the same, if the other operand is short. */
  lemma {:induction false} MaskOverXor(p: nat, k: nat, n: nat)
    requires k < BitFields.Pow2(n)
    ensures BitXor(p, k) % BitFields.Pow2(n) == BitXor(p % BitFields.Pow2(n), k)
    decreases n
  {
    if n == 0 {
      assert BitFields.Pow2(0) == 1;
      OfNothing();
    } else {
      MaskOverXor(p / 2, k / 2, n - 1);
      MaskOneMore(p, k, BitFields.Pow2(n - 1));
    }
  }

  lemma MaskOneMore(p: nat, k: nat, q: nat)
    requires q > 0 && BitXor(p / 2, k / 2) % q == BitXor((p / 2) % q, k / 2)
    ensures BitXor(p, k) % (2 * q) == BitXor(p % (2 * q), k)
  {
    hide BitXor;
    hide Parity;
    XorByHalves(p, k);
    MaskedByHalves(p, k, q);
    DoubleRemainder(BitXor(p / 2, k / 2), Parity(p, k), q);
  }

  function Parity(p: nat, k: nat): (d: nat)
    ensures d < 2
  {
    (p % 2 + k % 2) % 2
  }

  lemma XorByHalves(p: nat, k: nat)
    ensures BitXor(p, k) == 2 * BitXor(p / 2, k / 2) + Parity(p, k)
  {
    hide BitXor;
    BitXorStep(p / 2, k / 2, p % 2, k % 2);
  }

  lemma MaskedByHalves(p: nat, k: nat, q: nat)
    requires q > 0
    ensures BitXor(p % (2 * q), k) == 2 * BitXor((p / 2) % q, k / 2) + Parity(p, k)
  {
    hide BitXor;
    SplitRemainder(p, q);
    BitXorStep((p / 2) % q, k / 2, p % 2, k % 2);
  }

  lemma DoubleRemainder(e: nat, d: nat, q: nat)
    requires q > 0 && d < 2
    ensures (2 * e + d) % (2 * q) == 2 * (e % q) + d
  {
    SplitRemainder(2 * e + d, q);
    Halves(e, d);
  }

  lemma Halves(e: nat, d: nat)
    requires d < 2
    ensures (2 * e + d) / 2 == e && (2 * e + d) % 2 == d
  {
  }

  lemma SplitRemainder(p: nat, q: nat)
    requires q > 0
    ensures p % (2 * q) == 2 * ((p / 2) % q) + p % 2
  {
    var h := p / 2;
    var t, r := h / q, h % q;
    assert h == t * q + r;
    assert p == t * (2 * q) + (2 * r + p % 2);
    Remainder(t, 2 * q, 2 * r + p % 2);
  }

  lemma Remainder(t: nat, m: nat, r: nat)
    requires r < m
    ensures (t * m + r) % m == r
  {
    if t > 0 {
      Remainder(t - 1, m, r);
      assert t * m + r == ((t - 1) * m + r) + m;
      AddModulus((t - 1) * m + r, m);
    }
  }

  lemma AddModulus(x: nat, m: nat)
    requires m > 0
    ensures (x + m) % m == x % m
  {
    var q, q2 := x / m, (x + m) / m;
    var r, r2 := x % m, (x + m) % m;
    assert x == q * m + r && x + m == q2 * m + r2;
    var d := q2 - q - 1;
    assert d * m == r - r2;
  }

  // ---- Counting up ----

  function Succ(x: bv32): bv32 { x + 1 }

  function And(x: bv32, m: bv32): bv32 { x & m }

  const CLIP: bv32 := 0x7fff_ffff

  lemma SuccOfEven(x: bv32)
    requires Odd(x) == 0
    ensures Half(Succ(x)) == Half(x) && Odd(Succ(x)) == 1
  {
  }

  lemma SuccOfOdd(x: bv32)
    requires Odd(x) == 1
    ensures And(Half(Succ(x)), CLIP) == And(Succ(Half(x)), CLIP) && Odd(Succ(x)) == 0
  {
  }

  /** A mask whose n lowest bits are set. */
  predicate Ones(m: bv32, n: nat)
    decreases n
  {
    n == 0 || (Odd(m) == 1 && Ones(Half(m), n - 1))
  }

  lemma AndBits(x: bv32, m: bv32)
    ensures Half(And(x, m)) == And(Half(x), Half(m))
    ensures Odd(m) == 1 ==> Odd(And(x, m)) == Odd(x)
  {
  }

  lemma {:induction false} LowOfMasked(x: bv32, m: bv32, n: nat)
    requires Ones(m, n)
    ensures Low(And(x, m), n) == Low(x, n)
    decreases n
  {
    hide Half;
    hide Odd;
    hide And;
    if n > 0 {
      AndBits(x, m);
      LowOfMasked(Half(x), Half(m), n - 1);
    }
  }

  function Shr4(x: bv32): bv32 { x >> 4 }

  lemma HalvedFourTimes(m: bv32)
    ensures Half(Half(Half(Half(m)))) == Shr4(m)
  {
    assert Half(Half(Half(m >> 1))) == Shr4(m);
  }

  lemma FourOnes(m: bv32)
    requires And(m, 0xf) == 0xf
    ensures Odd(m) == 1 && Odd(Half(m)) == 1
    ensures Odd(Half(Half(m))) == 1 && Odd(Half(Half(Half(m)))) == 1
  {
    assert m & 0xf == 0xf;
    assert (m >> 1) & 1 == 1;
    assert ((m >> 1) >> 1) & 1 == 1;
    assert (((m >> 1) >> 1) >> 1) & 1 == 1;
  }

  lemma Ones4(m: bv32, n: nat)
    requires And(m, 0xf) == 0xf && Ones(Shr4(m), n)
    ensures Ones(m, n + 4)
  {
    hide Half;
    hide Odd;
    hide And;
    hide Shr4;
    FourOnes(m);
    HalvedFourTimes(m);
    var a, b, c := Half(m), Half(Half(m)), Half(Half(Half(m)));
    assert Ones(c, n + 1) && Ones(b, n + 2) && Ones(a, n + 3);
  }

  lemma Masks()
    ensures Ones(CLIP, 31) && Ones(0xff, 8)
  {
    assert Ones(0, 0);
    assert Ones(0x1, 1);
    assert Ones(0x3, 2);
    assert Ones(0x7, 3);
    assert And(0x7f, 0xf) == 0xf && Shr4(0x7f) == 0x7;
    Ones4(0x7f, 3);
    assert And(0x7ff, 0xf) == 0xf && Shr4(0x7ff) == 0x7f;
    Ones4(0x7ff, 7);
    assert And(0x7fff, 0xf) == 0xf && Shr4(0x7fff) == 0x7ff;
    Ones4(0x7fff, 11);
    assert And(0x7_ffff, 0xf) == 0xf && Shr4(0x7_ffff) == 0x7fff;
    Ones4(0x7_ffff, 15);
    assert And(0x7f_ffff, 0xf) == 0xf && Shr4(0x7f_ffff) == 0x7_ffff;
    Ones4(0x7f_ffff, 19);
    assert And(0x7ff_ffff, 0xf) == 0xf && Shr4(0x7ff_ffff) == 0x7f_ffff;
    Ones4(0x7ff_ffff, 23);
    assert And(0x7fff_ffff, 0xf) == 0xf && Shr4(0x7fff_ffff) == 0x7ff_ffff;
    Ones4(0x7fff_ffff, 27);
    assert And(0xf, 0xf) == 0xf && Shr4(0xf) == 0;
    Ones4(0xf, 0);
    assert And(0xff, 0xf) == 0xf && Shr4(0xff) == 0xf;
    Ones4(0xff, 4);
  }

  lemma {:induction false} OnesShorter(m: bv32, n: nat, k: nat)
    requires Ones(m, n) && k <= n
    ensures Ones(m, k)
    decreases n
  {
    if k > 0 {
      OnesShorter(Half(m), n - 1, k - 1);
    }
  }

  /** One more, starting again at m. */
  function Counted(v: nat, m: nat): nat
    requires m > 0
  {
    (v + 1) % m
  }

  lemma NoCarry(l: nat, p: nat, v: nat, m: nat)
    requires l < p && v == 2 * l && m == 2 * p
    ensures 2 * l + 1 == Counted(v, m)
  {
    Remainder(0, 2 * p, 2 * l + 1);
  }

  lemma Carry(l: nat, p: nat, v: nat, m: nat)
    requires l < p && v == 2 * l + 1 && m == 2 * p
    ensures 2 * Counted(l, p) == Counted(v, m)
  {
    if l + 1 == p {
      Remainder(1, p, 0);
      Remainder(1, 2 * p, 0);
    } else {
      Remainder(0, p, l + 1);
      Remainder(0, 2 * p, 2 * l + 2);
    }
  }

  lemma LowStep(x: bv32, n: nat)
    requires n > 0
    ensures Low(x, n) == 2 * Low(Half(x), n - 1) + Odd(x)
  {
  }

  /** Halving the successor of an odd word is, in the bits that count, the successor of its half. */
  lemma HalfOfSucc(x: bv32, n: nat)
    requires Odd(x) == 1 && 0 < n <= 32
    ensures Low(Half(Succ(x)), n - 1) == Low(Succ(Half(x)), n - 1)
  {
    hide Half;
    hide Odd;
    hide And;
    hide Succ;
    hide Low;
    hide Ones;
    SuccOfOdd(x);
    Masks();
    OnesShorter(CLIP, 31, n - 1);
    LowOfMasked(Half(Succ(x)), CLIP, n - 1);
    LowOfMasked(Succ(Half(x)), CLIP, n - 1);
  }

  lemma LowSuccOfEven(x: bv32, n: nat)
    requires Odd(x) == 0 && n > 0
    ensures Low(Succ(x), n) == 2 * Low(Half(x), n - 1) + 1
  {
    hide Half;
    hide Odd;
    hide Succ;
    hide Low;
    LowStep(Succ(x), n);
    SuccOfEven(x);
  }

  lemma LowSuccOfOdd(x: bv32, n: nat)
    requires Odd(x) == 1 && 0 < n <= 32
    ensures Low(Succ(x), n) == 2 * Low(Succ(Half(x)), n - 1)
  {
    hide Half;
    hide Odd;
    hide Succ;
    hide Low;
    LowStep(Succ(x), n);
    SuccOfOdd(x);
    HalfOfSucc(x, n);
  }

  /** Adding one to a word adds one to its n lowest bits, with wrap-around. */
  lemma {:induction false} LowSucc(x: bv32, n: nat)
    requires n <= 32
    ensures Low(Succ(x), n) == Counted(Low(x, n), BitFields.Pow2(n))
    decreases n
  {
    hide Half;
    hide Odd;
    hide Succ;
    if n > 0 {
      assert BitFields.Pow2(n) == 2 * BitFields.Pow2(n - 1);
      hide Low;
      hide Counted;
      hide BitFields.Pow2;
      LowBound(Half(x), n - 1);
      OddIsDigit(x);
      LowStep(x, n);
      if Odd(x) == 0 {
        LowSuccOfEven(x, n);
        NoCarry(Low(Half(x), n - 1), BitFields.Pow2(n - 1), Low(x, n), BitFields.Pow2(n));
      } else {
        LowSuccOfOdd(x, n);
        LowSucc(Half(x), n - 1);
        Carry(Low(Half(x), n - 1), BitFields.Pow2(n - 1), Low(x, n), BitFields.Pow2(n));
      }
    }
  }

  lemma SuccEmbeds(x: bv32)
    ensures Embed(Succ(x)) == (Embed(x) + 1) % LIMIT
  {
    hide Low;
    LowSucc(x, 32);
    Fits32();
  }

  lemma {:induction false} LowOfZero(n: nat)
    ensures Low(0, n) == 0
  {
    if n > 0 {
      assert Half(0) == 0 && Odd(0) == 0;
      LowOfZero(n - 1);
    }
  }

  // ---- Sums and products ----

  function Add(x: bv32, y: bv32): bv32 { x + y }

  lemma Predecessor(x: bv32) returns (w: bv32)
    requires x != 0
    ensures Succ(w) == x && w < x
  {
    w := x - 1;
  }

  lemma AddSucc(x: bv32, w: bv32)
    ensures Add(x, Succ(w)) == Succ(Add(x, w))
  {
    assert Add(x, w + 1) == Succ(x + w);
  }

  lemma AddZero(x: bv32)
    ensures Add(x, 0) == x
  {
  }

  lemma SumRemainder(a: nat, b: nat, m: nat)
    requires m > 0
    ensures (a % m + b) % m == (a + b) % m && (b + a % m) % m == (a + b) % m
  {
    var t := a / m;
    assert a + b == (a % m + b) + t * m;
    AddManyModuli(a % m + b, t, m);
  }

  lemma AddManyModuli(x: nat, t: nat, m: nat)
    requires m > 0
    ensures (x + t * m) % m == x % m
  {
    if t > 0 {
      AddManyModuli(x, t - 1, m);
      assert x + t * m == (x + (t - 1) * m) + m;
      AddModulus(x + (t - 1) * m, m);
    }
  }

  function Wrapped(a: nat): nat { a % LIMIT }

  lemma AddEmbeds(x: bv32, y: bv32)
    ensures Embed(Add(x, y)) == (Embed(x) + Embed(y)) % LIMIT
  {
    hide Add;
    hide Embed;
    AddIsWrapped(x, y);
  }

  lemma {:induction false} AddIsWrapped(x: bv32, y: bv32)
    ensures Embed(Add(x, y)) == Wrapped(Embed(x) + Embed(y))
    decreases y
  {
    hide Add;
    hide Succ;
    hide Embed;
    if y == 0 {
      AddZero(x);
      EmbedZero();
      EmbedBound(x);
    } else {
      hide Wrapped;
      var w := Predecessor(y);
      AddIsWrapped(x, w);
      AddSucc(x, w);
      SuccIsWrapped(w);
      SuccIsWrapped(Add(x, w));
      WrappedOnce(Embed(x), Embed(w));
    }
  }

  lemma SuccIsWrapped(x: bv32)
    ensures Embed(Succ(x)) == Wrapped(Embed(x) + 1)
  {
    hide Succ;
    hide Embed;
    SuccEmbeds(x);
  }

  lemma WrappedOnce(a: nat, b: nat)
    ensures Wrapped(Wrapped(a + b) + 1) == Wrapped(a + Wrapped(b + 1))
  {
    SumRemainder(a + b, 1, LIMIT);
    SumRemainder(b + 1, a, LIMIT);
  }

  lemma EmbedZero()
    ensures Embed(0) == 0
  {
    LowOfZero(32);
  }

  lemma MulSucc(w: bv32)
    ensures Mul(Succ(w)) == Add(Mul(w), 0x5bd1e995)
  {
    assert Mul(w + 1) == Add(w * 0x5bd1e995, 0x5bd1e995);
  }

  lemma MulZero()
    ensures Mul(0) == 0
  {
  }

  lemma ProductRemainder(a: nat, k: nat, m: nat)
    requires m > 0
    ensures (a % m * k) % m == (a * k) % m
  {
    var t, r := a / m, a % m;
    assert a == t * m + r;
    ProductOfSum(t, m, r, k);
  }

  lemma ProductOfSum(t: nat, m: nat, r: nat, k: nat)
    requires m > 0
    ensures (r * k) % m == ((t * m + r) * k) % m
  {
    Distribute(t, m, r, k);
    AddManyModuli(r * k, t * k, m);
  }

  lemma Distribute(t: nat, m: nat, r: nat, k: nat)
    ensures (t * m + r) * k == r * k + (t * k) * m
  {
  }

  // ---- The multiplier ----

  function FourBits(x: bv32): nat {
    Odd(x) + 2 * Odd(Half(x)) + 4 * Odd(Half(Half(x))) + 8 * Odd(Half(Half(Half(x))))
  }

  /** Reading a word four bits at a time. */
  lemma LowNibble(x: bv32, y: bv32, d: nat, n: nat)
    requires Shr4(x) == y && FourBits(x) == d
    ensures Low(x, n + 4) == 16 * Low(y, n) + d
  {
    HalvedFourTimes(x);
    hide Half;
    hide Odd;
    hide Shr4;
    var a, b, c := Half(x), Half(Half(x)), Half(Half(Half(x)));
    assert Low(x, n + 4) == 2 * Low(a, n + 3) + Odd(x);
    assert Low(a, n + 3) == 2 * Low(b, n + 2) + Odd(a);
    assert Low(b, n + 2) == 2 * Low(c, n + 1) + Odd(b);
  }

  lemma EmbedMultiplier()
    ensures Embed(0x5bd1e995) == M
  {
    hide Low;
    LowOfZero(0);
    LowNibble(0x5, 0, 5, 0);
    LowNibble(0x5b, 0x5, 0xb, 4);
    LowNibble(0x5bd, 0x5b, 0xd, 8);
    LowNibble(0x5bd1, 0x5bd, 0x1, 12);
    LowNibble(0x5_bd1e, 0x5bd1, 0xe, 16);
    LowNibble(0x5b_d1e9, 0x5_bd1e, 0x9, 20);
    LowNibble(0x5bd_1e99, 0x5b_d1e9, 0x9, 24);
    LowNibble(0x5bd1_e995, 0x5bd_1e99, 0x5, 28);
  }

  lemma EmbedSeed()
    ensures Embed(0x1337533d) == SEED && Embed(12) == 12
  {
    hide Low;
    LowOfZero(0);
    LowNibble(0x1, 0, 1, 0);
    LowNibble(0x13, 0x1, 0x3, 4);
    LowNibble(0x133, 0x13, 0x3, 8);
    LowNibble(0x1337, 0x133, 0x7, 12);
    LowNibble(0x1_3375, 0x1337, 0x5, 16);
    LowNibble(0x13_3753, 0x1_3375, 0x3, 20);
    LowNibble(0x133_7533, 0x13_3753, 0x3, 24);
    LowNibble(0x1337_533d, 0x133_7533, 0xd, 28);
    LowOfZero(28);
    LowNibble(12, 0, 12, 28);
  }

  /** The wrapping product of a word is the unbounded product, masked. */
  lemma {:induction false} MulEmbeds(x: bv32)
    ensures Embed(Mul(x)) == Mask(Embed(x) * M)
    decreases x
  {
    hide Mul;
    hide Succ;
    hide Add;
    hide Embed;
    if x == 0 {
      MulZero();
      EmbedZero();
    } else {
      var w := Predecessor(x);
      MulEmbeds(w);
      MulSucc(w);
      EmbedMultiplier();
      AddEmbeds(Mul(w), 0x5bd1e995);
      SuccEmbeds(w);
      SumRemainder(Embed(w) * M, M, LIMIT);
      ProductRemainder(Embed(w) + 1, M, LIMIT);
      assert (Embed(w) + 1) * M == Embed(w) * M + M;
    }
  }

  // ---- Shifts right ----

  function S2(x: bv32): bv32 { x >> 2 }

  function S8(x: bv32): bv32 { x >> 8 }

  function S12(x: bv32): bv32 { x >> 12 }

  function S13(x: bv32): bv32 { x >> 13 }

  function S15(x: bv32): bv32 { x >> 15 }

  function S16(x: bv32): bv32 { x >> 16 }

  function S24(x: bv32): bv32 { x >> 24 }

  lemma Shift2(x: bv32)
    ensures Half(Half(x)) == S2(x)
  {
  }

  lemma Shift4(x: bv32)
    ensures S2(S2(x)) == Shr4(x)
  {
  }

  lemma Shift8(x: bv32)
    ensures Shr4(Shr4(x)) == S8(x)
  {
  }

  lemma Shift16(x: bv32)
    ensures S8(S8(x)) == S16(x)
  {
  }

  lemma Shift12(x: bv32)
    ensures S8(Shr4(x)) == S12(x)
  {
  }

  lemma Shift13(x: bv32)
    ensures Half(S12(x)) == S13(x)
  {
  }

  lemma Shift15(x: bv32)
    ensures S2(S13(x)) == S15(x)
  {
  }

  lemma Shift8Of16(x: bv32)
    ensures S8(S16(x)) == S24(x)
  {
  }

  lemma NothingLeft(x: bv32)
    ensures S16(S16(x)) == 0
  {
    assert S16(x >> 16) == 0;
  }

  function Halved(x: bv32, n: nat): bv32
    decreases n
  {
    if n == 0 then x else Halved(Half(x), n - 1)
  }

  lemma {:induction false} HalvedTwice(x: bv32, m: nat, n: nat)
    ensures Halved(x, m + n) == Halved(Halved(x, m), n)
    decreases m
  {
    hide Half;
    if m > 0 {
      HalvedTwice(Half(x), m - 1, n);
    }
  }

  lemma Halved2(x: bv32)
    ensures Halved(x, 1) == Half(x) && Halved(x, 2) == S2(x)
  {
    Shift2(x);
    hide Half;
    hide S2;
    assert Halved(Half(x), 0) == Half(x);
    assert Halved(Half(Half(x)), 0) == Half(Half(x));
    assert Halved(Half(x), 1) == Halved(Half(Half(x)), 0);
  }

  lemma Halved8(x: bv32)
    ensures Halved(x, 4) == Shr4(x) && Halved(x, 8) == S8(x)
  {
    hide Halved;
    hide S2;
    hide Shr4;
    hide S8;
    Halved2(x);
    Halved2(S2(x));
    HalvedTwice(x, 2, 2);
    Halved2(Shr4(x));
    Halved2(S2(Shr4(x)));
    HalvedTwice(Shr4(x), 2, 2);
    HalvedTwice(x, 4, 4);
    Shift4(x);
    Shift4(Shr4(x));
    Shift8(x);
  }

  lemma Halved16(x: bv32)
    ensures Halved(x, 16) == S16(x) && Halved(x, 24) == S24(x)
  {
    hide Halved;
    hide S8;
    hide S16;
    hide S24;
    Halved8(x);
    Halved8(S8(x));
    HalvedTwice(x, 8, 8);
    Shift16(x);
    HalvedTwice(x, 16, 8);
    Halved8(S16(x));
    Shift8Of16(x);
  }

  lemma Halved15(x: bv32)
    ensures Halved(x, 13) == S13(x) && Halved(x, 15) == S15(x)
  {
    hide Halved;
    hide S2;
    hide S8;
    hide S12;
    hide S13;
    hide S15;
    hide Half;
    hide Shr4;
    Halved8(x);
    Halved8(Shr4(x));
    HalvedTwice(x, 4, 8);
    Halved2(S12(x));
    HalvedTwice(x, 12, 1);
    Halved2(S13(x));
    HalvedTwice(x, 13, 2);
    Shift12(x);
    Shift13(x);
    Shift15(x);
  }

  lemma NoBitsBeyond(x: bv32)
    ensures Halved(x, 32) == 0
  {
    Halved16(x);
    Halved16(S16(x));
    HalvedTwice(x, 16, 16);
    NothingLeft(x);
  }

  /** A word without bits from the m-th on is told by its m lowest. */
  lemma {:induction false} LowOfShort(x: bv32, m: nat, n: nat)
    requires m <= n && Halved(x, m) == 0
    ensures Low(x, n) == Low(x, m)
    decreases n
  {
    hide Half;
    hide Odd;
    if m == 0 {
      LowOfZero(n);
    } else {
      LowOfShort(Half(x), m - 1, n - 1);
    }
  }

  lemma HalfEmbeds(x: bv32)
    ensures Embed(Half(x)) == Embed(x) / 2
  {
    hide Half;
    hide Odd;
    NoBitsBeyond(x);
    OddIsDigit(x);
    HalvedStep(x, 32);
    LowOfShort(Half(x), 31, 32);
    LowStep(x, 32);
  }

  lemma HalvedStep(x: bv32, n: nat)
    requires n > 0
    ensures Halved(x, n) == Halved(Half(x), n - 1)
  {
  }

  lemma {:induction false} HalvedEmbeds(x: bv32, n: nat)
    ensures Embed(Halved(x, n)) == Shr(Embed(x), n)
    decreases n
  {
    hide Half;
    hide Embed;
    if n > 0 {
      HalfEmbeds(x);
      HalvedEmbeds(Half(x), n - 1);
    }
  }

  lemma XorShift24IsXor(x: bv32)
    ensures XorShift24(x) == Xor(x, S24(x))
  {
    assert XorShift24(x) == x ^ (x >> 24);
    assert S24(x) == x >> 24;
    assert Xor(x, x >> 24) == x ^ (x >> 24);
  }

  lemma XorShift13IsXor(x: bv32)
    ensures XorShift13(x) == Xor(x, S13(x))
  {
    assert XorShift13(x) == x ^ (x >> 13);
    assert S13(x) == x >> 13;
    assert Xor(x, x >> 13) == x ^ (x >> 13);
  }

  lemma XorShift15IsXor(x: bv32)
    ensures XorShift15(x) == Xor(x, S15(x))
  {
    assert XorShift15(x) == x ^ (x >> 15);
    assert S15(x) == x >> 15;
    assert Xor(x, x >> 15) == x ^ (x >> 15);
  }

  lemma XorShiftsEmbed(x: bv32)
    ensures Embed(XorShift24(x)) == XorShift(Embed(x), 24)
    ensures Embed(XorShift13(x)) == XorShift(Embed(x), 13)
    ensures Embed(XorShift15(x)) == XorShift(Embed(x), 15)
  {
    hide XorShift24;
    hide XorShift13;
    hide XorShift15;
    hide Xor;
    hide S24;
    hide S13;
    hide S15;
    hide Embed;
    hide Halved;
    hide Shr;
    XorShift24IsXor(x);
    XorShift13IsXor(x);
    XorShift15IsXor(x);
    Halved16(x);
    Halved15(x);
    HalvedEmbeds(x, 24);
    HalvedEmbeds(x, 13);
    HalvedEmbeds(x, 15);
    XorEmbeds(x, S24(x));
    XorEmbeds(x, S13(x));
    XorEmbeds(x, S15(x));
  }

  // ---- Octets and shifts left ----

  function OfOctet(v: bv8): bv32 { v as bv32 }

  lemma OctetPredecessor(v: bv8) returns (w: bv8)
    requires v != 0
    ensures w < v && w != 0xff && w + 1 == v
  {
    w := v - 1;
  }

  lemma OctetSucc(w: bv8)
    requires w != 0xff
    ensures OfOctet(w + 1) == Succ(OfOctet(w))
  {
  }

  lemma OctetZero()
    ensures OfOctet(0) == 0 && Value(0) == 0
  {
  }

  lemma {:induction false} OctetEmbeds(v: bv8)
    ensures Embed(OfOctet(v)) == Value(v)
    decreases v
  {
    hide Embed;
    hide Succ;
    hide OfOctet;
    hide Value;
    if v == 0 {
      OctetZero();
      EmbedZero();
    } else {
      var w := OctetPredecessor(v);
      OctetEmbeds(w);
      OctetSucc(w);
      ValueSuccessor(w);
      SuccEmbeds(OfOctet(w));
    }
  }

  lemma DoubleProduct(p: nat, r: nat)
    ensures (2 * p) * r == 2 * (p * r)
  {
  }

  /** The low bits and the rest. */
  lemma {:induction false} LowSplit(x: bv32, m: nat, n: nat)
    ensures Low(x, m + n) == Low(x, m) + BitFields.Pow2(m) * Low(Halved(x, m), n)
    decreases m
  {
    hide Half;
    hide Odd;
    if m > 0 {
      LowSplit(Half(x), m - 1, n);
      HalvedStep(x, m);
      LowStep(x, m);
      LowStep(x, m + n);
      hide Low;
      var p, r := BitFields.Pow2(m - 1), Low(Halved(x, m), n);
      assert BitFields.Pow2(m) == 2 * p;
      hide BitFields.Pow2;
      DoubleProduct(p, r);
    }
  }

  function LastOctet(h: bv32): bv8 { (h & 0xff) as bv8 }

  lemma LastOctetIsMasked(h: bv32)
    ensures OfOctet(LastOctet(h)) == And(h, 0xff)
  {
  }

  lemma MaskedIsShort(h: bv32)
    ensures S8(And(h, 0xff)) == 0
  {
    assert S8(h & 0xff) == 0;
  }

  lemma LastOctetIsLow(h: bv32)
    ensures Value(LastOctet(h)) == Low(h, 8)
  {
    hide And;
    hide S8;
    hide OfOctet;
    hide LastOctet;
    hide Low;
    hide Value;
    var x := And(h, 0xff);
    OctetEmbeds(LastOctet(h));
    LastOctetIsMasked(h);
    MaskedIsShort(h);
    Halved8(x);
    LowOfShort(x, 8, 32);
    Masks();
    LowOfMasked(h, 0xff, 8);
  }

  lemma TruncatedLow(h: bv32)
    ensures LowOctet(Truncate(h)) == LastOctet(h)
  {
  }

  lemma TruncatedHigh(h: bv32)
    ensures HighOctet(Truncate(h)) == LastOctet(S8(h))
  {
  }

  /** Truncating the final state to 16 bits takes its remainder. */
  lemma TruncateEmbeds(h: bv32)
    ensures Value16(Truncate(h)) == Embed(h) % 0x1_0000
  {
    hide LowOctet;
    hide HighOctet;
    hide Truncate;
    hide LastOctet;
    hide S8;
    hide Low;
    hide Value;
    TruncatedLow(h);
    TruncatedHigh(h);
    LastOctetIsLow(h);
    LastOctetIsLow(S8(h));
    Halved8(h);
    LowSplit(h, 8, 8);
    BitFields.Powers();
    LowSixteen(h);
  }

  lemma LowSixteen(h: bv32)
    ensures Embed(h) % 0x1_0000 == Low(h, 16)
  {
    hide Low;
    LowSplit(h, 16, 16);
    Fits32();
    LowBound(h, 16);
    Remainder(Low(Halved(h, 16), 16), 0x1_0000, Low(h, 16));
  }

  function Doubled(x: bv32, n: nat): bv32
    decreases n
  {
    if n == 0 then x else Doubled(Add(x, x), n - 1)
  }

  lemma {:induction false} ShlIsProduct(k: nat, n: nat)
    ensures Shl(k, n) == k * BitFields.Pow2(n)
    decreases n
  {
    if n > 0 {
      ShlIsProduct(2 * k, n - 1);
      var p := BitFields.Pow2(n - 1);
      assert (2 * k) * p == k * (2 * p);
    }
  }

  lemma {:induction false} DoubledEmbeds(x: bv32, n: nat)
    requires Shl(Embed(x), n) < LIMIT
    ensures Embed(Doubled(x, n)) == Shl(Embed(x), n)
    decreases n
  {
    hide Add;
    hide Embed;
    hide Shl;
    if n > 0 {
      ShlStep(Embed(x), n);
      ShlGrows(2 * Embed(x), n - 1);
      AddEmbeds(x, x);
      DoubledEmbeds(Add(x, x), n - 1);
    } else {
      ShlZero(Embed(x));
    }
  }

  lemma ShlZero(k: nat)
    ensures Shl(k, 0) == k
  {
  }

  lemma ShlStep(k: nat, n: nat)
    requires n > 0
    ensures Shl(k, n) == Shl(2 * k, n - 1)
  {
  }

  lemma {:induction false} ShlGrows(k: nat, n: nat)
    ensures k <= Shl(k, n)
    decreases n
  {
    if n > 0 {
      ShlGrows(2 * k, n - 1);
    }
  }

  lemma {:induction false} DoubledTwice(x: bv32, m: nat, n: nat)
    ensures Doubled(x, m + n) == Doubled(Doubled(x, m), n)
    decreases m
  {
    hide Add;
    if m > 0 {
      DoubledTwice(Add(x, x), m - 1, n);
    }
  }

  function L2(x: bv32): bv32 { x << 2 }

  function L4(x: bv32): bv32 { x << 4 }

  function L8(x: bv32): bv32 { x << 8 }

  function L16(x: bv32): bv32 { x << 16 }

  function L24(x: bv32): bv32 { x << 24 }

  lemma Left2(x: bv32)
    ensures Add(Add(x, x), Add(x, x)) == L2(x)
  {
  }

  lemma Left4(x: bv32)
    ensures L2(L2(x)) == L4(x)
  {
  }

  lemma Left8(x: bv32)
    ensures L4(L4(x)) == L8(x)
  {
  }

  lemma Left16(x: bv32)
    ensures L8(L8(x)) == L16(x)
  {
  }

  lemma Left24(x: bv32)
    ensures L8(L16(x)) == L24(x)
  {
  }

  lemma Doubled2(x: bv32)
    ensures Doubled(x, 2) == L2(x)
  {
    Left2(x);
    hide Add;
    hide L2;
    var y := Add(x, x);
    assert Doubled(y, 1) == Doubled(Add(y, y), 0);
  }

  lemma Doubled8(x: bv32)
    ensures Doubled(x, 8) == L8(x)
  {
    hide Doubled;
    hide L2;
    hide L4;
    hide L8;
    Doubled2(x);
    Doubled2(L2(x));
    DoubledTwice(x, 2, 2);
    Left4(x);
    Doubled2(L4(x));
    Doubled2(L2(L4(x)));
    DoubledTwice(L4(x), 2, 2);
    DoubledTwice(x, 4, 4);
    Left4(L4(x));
    Left8(x);
  }

  lemma Doubled24(x: bv32)
    ensures Doubled(x, 16) == L16(x) && Doubled(x, 24) == L24(x)
  {
    hide Doubled;
    hide L8;
    hide L16;
    hide L24;
    Doubled8(x);
    Doubled8(L8(x));
    DoubledTwice(x, 8, 8);
    Left16(x);
    DoubledTwice(x, 16, 8);
    Doubled8(L16(x));
    Left24(x);
  }

  /** An octet of the input, as a word and as an integer, in any of its places. */
  lemma PlacedOctet(b: byte)
    ensures var x := OfOctet(Checksums.Bits(b));
            && Embed(x) == b && Embed(L8(x)) == Shl(b, 8)
            && Embed(L16(x)) == Shl(b, 16) && Embed(L24(x)) == Shl(b, 24)
  {
    hide Embed;
    hide Doubled;
    hide Shl;
    hide L8;
    hide L16;
    hide L24;
    hide OfOctet;
    var x := OfOctet(Checksums.Bits(b));
    OctetEmbeds(Checksums.Bits(b));
    Doubled8(x);
    Doubled24(x);
    ShlFits(b);
    DoubledEmbeds(x, 8);
    DoubledEmbeds(x, 16);
    DoubledEmbeds(x, 24);
  }

  lemma ShlFits(b: byte)
    ensures Shl(b, 8) < LIMIT && Shl(b, 16) < LIMIT && Shl(b, 24) < LIMIT
  {
    hide Shl;
    ShlIsProduct(b, 8);
    ShlIsProduct(b, 16);
    ShlIsProduct(b, 24);
    Fits32();
    BitFields.Powers();
    BitFields.PowerOfSum(16, 8);
    assert BitFields.Pow2(24) == 0x100_0000;
  }

  // ---- Words of the input ----

  lemma WordIsOr(a: bv8, b: bv8, c: bv8, d: bv8)
    ensures Word(a, b, c, d) == Or32(Or32(Or32(OfOctet(a), L8(OfOctet(b))), L16(OfOctet(c))), L24(OfOctet(d)))
  {
  }

  lemma WordEmbeds(a: byte, b: byte, c: byte, d: byte)
    ensures Embed(Word(Checksums.Bits(a), Checksums.Bits(b), Checksums.Bits(c), Checksums.Bits(d)))
            == PyWord(a, b, c, d)
  {
    hide Embed;
    hide Word;
    hide Or32;
    hide OfOctet;
    hide L8;
    hide L16;
    hide L24;
    hide Shl;
    hide BitOr;
    hide Checksums.Bits;
    var x, y, z, w := OfOctet(Checksums.Bits(a)), OfOctet(Checksums.Bits(b)), OfOctet(Checksums.Bits(c)),
      OfOctet(Checksums.Bits(d));
    PlacedOctet(a);
    PlacedOctet(b);
    PlacedOctet(c);
    PlacedOctet(d);
    WordIsOr(Checksums.Bits(a), Checksums.Bits(b), Checksums.Bits(c), Checksums.Bits(d));
    OrEmbeds(x, L8(y));
    OrEmbeds(Or32(x, L8(y)), L16(z));
    OrEmbeds(Or32(Or32(x, L8(y)), L16(z)), L24(w));
  }

  lemma ScrambleEmbeds(k: bv32)
    ensures Embed(Scramble(k)) == PyScramble(Embed(k))
  {
    hide Embed;
    hide Mul;
    hide XorShift24;
    hide XorShift;
    MulEmbeds(k);
    XorShiftsEmbed(Mul(k));
    MulEmbeds(XorShift24(Mul(k)));
  }

  lemma MaskedXor(p: nat, k: nat)
    requires k < LIMIT
    ensures Mask(BitXor(p, k)) == BitXor(Mask(p), k)
  {
    Fits32();
    MaskOverXor(p, k, 32);
  }

  lemma AbsorbEmbeds(h: bv32, w: seq<byte>)
    requires |w| == 4
    ensures PyAbsorb(Embed(h), w) == Embed(Absorb(h, w))
  {
    hide Embed;
    hide Mul;
    hide Xor;
    hide Scramble;
    hide PyScramble;
    hide Word;
    hide PyWord;
    hide BitXor;
    hide Mask;
    hide Checksums.Bits;
    var k := Word(Checksums.Bits(w[0]), Checksums.Bits(w[1]), Checksums.Bits(w[2]), Checksums.Bits(w[3]));
    WordEmbeds(w[0], w[1], w[2], w[3]);
    ScrambleEmbeds(k);
    MulEmbeds(h);
    XorEmbeds(Mul(h), Scramble(k));
    EmbedBound(Scramble(k));
    MaskedXor(Embed(h) * M, Embed(Scramble(k)));
  }

  // ---- The tail ----

  lemma Mix1IsXor(h: bv32, a: bv8)
    ensures Mix1(h, a) == Xor(h, OfOctet(a))
  {
  }

  lemma Mix2IsXor(h: bv32, a: bv8, b: bv8)
    ensures Mix2(h, a, b) == Xor(Xor(h, L8(OfOctet(b))), OfOctet(a))
  {
    assert L8(OfOctet(b)) == (b as bv32) << 8;
    assert Xor(h, (b as bv32) << 8) == h ^ ((b as bv32) << 8);
    assert Xor(h ^ ((b as bv32) << 8), a as bv32) == Mix2(h, a, b);
  }

  lemma Mix3IsXor(h: bv32, a: bv8, b: bv8, c: bv8)
    ensures Mix3(h, a, b, c) == Xor(Xor(Xor(h, L16(OfOctet(c))), L8(OfOctet(b))), OfOctet(a))
  {
    assert L16(OfOctet(c)) == (c as bv32) << 16;
    assert Xor(h, (c as bv32) << 16) == h ^ ((c as bv32) << 16);
    Mix2IsXor(h ^ ((c as bv32) << 16), a, b);
    assert Mix2(h ^ ((c as bv32) << 16), a, b) == Mix3(h, a, b, c);
  }

  lemma Mix1Embeds(h: bv32, a: byte)
    ensures Embed(Mix1(h, Checksums.Bits(a))) == BitXor(Embed(h), a)
  {
    hide Embed;
    hide Xor;
    hide OfOctet;
    PlacedOctet(a);
    Mix1IsXor(h, Checksums.Bits(a));
    XorEmbeds(h, OfOctet(Checksums.Bits(a)));
  }

  lemma Mix2Embeds(h: bv32, a: byte, b: byte)
    ensures Embed(Mix2(h, Checksums.Bits(a), Checksums.Bits(b))) == BitXor(BitXor(Embed(h), Shl(b, 8)), a)
  {
    hide Embed;
    hide Xor;
    hide OfOctet;
    hide L8;
    hide BitXor;
    hide Shl;
    hide Checksums.Bits;
    var x, y := OfOctet(Checksums.Bits(a)), L8(OfOctet(Checksums.Bits(b)));
    PlacedOctet(a);
    PlacedOctet(b);
    Mix2IsXor(h, Checksums.Bits(a), Checksums.Bits(b));
    XorEmbeds(h, y);
    XorEmbeds(Xor(h, y), x);
  }

  lemma Mix3Embeds(h: bv32, a: byte, b: byte, c: byte)
    ensures Embed(Mix3(h, Checksums.Bits(a), Checksums.Bits(b), Checksums.Bits(c)))
         == BitXor(BitXor(BitXor(Embed(h), Shl(c, 16)), Shl(b, 8)), a)
  {
    hide Embed;
    hide Xor;
    hide OfOctet;
    hide L8;
    hide L16;
    hide BitXor;
    hide Shl;
    hide Checksums.Bits;
    var x, y, z := OfOctet(Checksums.Bits(a)), L8(OfOctet(Checksums.Bits(b))), L16(OfOctet(Checksums.Bits(c)));
    PlacedOctet(a);
    PlacedOctet(b);
    PlacedOctet(c);
    Mix3IsXor(h, Checksums.Bits(a), Checksums.Bits(b), Checksums.Bits(c));
    XorEmbeds(h, z);
    XorEmbeds(Xor(h, z), y);
    XorEmbeds(Xor(Xor(h, z), y), x);
  }

  lemma TailEmbeds(h: bv32, t: seq<byte>)
    requires |t| < 4
    ensures PyTail(Embed(h), t) == Embed(Tail(h, t))
  {
    hide Embed;
    hide Mul;
    hide Mix1;
    hide Mix2;
    hide Mix3;
    hide BitXor;
    hide Shl;
    hide Mask;
    hide Checksums.Bits;
    if |t| == 3 {
      Mix3Embeds(h, t[0], t[1], t[2]);
      MulEmbeds(Mix3(h, Checksums.Bits(t[0]), Checksums.Bits(t[1]), Checksums.Bits(t[2])));
    } else if |t| == 2 {
      Mix2Embeds(h, t[0], t[1]);
      MulEmbeds(Mix2(h, Checksums.Bits(t[0]), Checksums.Bits(t[1])));
    } else if |t| == 1 {
      Mix1Embeds(h, t[0]);
      MulEmbeds(Mix1(h, Checksums.Bits(t[0])));
    }
  }

  lemma FinishEmbeds(h: bv32)
    ensures PyFinish(Embed(h)) == Embed(Finish(h))
  {
    hide Embed;
    hide Mul;
    hide XorShift13;
    hide XorShift15;
    hide XorShift;
    hide Mask;
    XorShiftsEmbed(h);
    MulEmbeds(XorShift13(h));
    XorShiftsEmbed(Mul(XorShift13(h)));
  }

  lemma StartEmbeds()
    ensures PYTHON.start == Embed(GO.start)
  {
    hide Embed;
    hide BitXor;
    assert GO.start == Xor(12, 0x1337533d);
    EmbedSeed();
    XorEmbeds(12, 0x1337533d);
    EmbedBound(Xor(12, 0x1337533d));
  }

  // ---- Parity ----

  /** Step by step, the reference's unbounded integers are the numbers the recorder's words stand for. */
  lemma PythonSimulatesGo()
    ensures Simulates(PYTHON, GO, Embed)
  {
    hide Embed;
    StartEmbeds();
    forall h: bv32, w: seq<byte> | |w| == 4
      ensures PyAbsorb(Embed(h), w) == Embed(Absorb(h, w))
    {
      AbsorbEmbeds(h, w);
    }
    forall h: bv32, t: seq<byte> | |t| < 4
      ensures PyTail(Embed(h), t) == Embed(Tail(h, t))
    {
      TailEmbeds(h, t);
    }
    forall h: bv32
      ensures PyFinish(Embed(h)) == Embed(Finish(h))
    {
      FinishEmbeds(h);
    }
  }

  lemma QuartersOf(v: nat)
    ensures v / 0x1_0000 == v / 0x100 / 0x100 && v / 0x100_0000 == v / 0x100 / 0x100 / 0x100
  {
  }

  lemma LeastOf16(v: uint16)
    ensures Least(v, 2) == PutLE16(v) && Most(v, 2) == PutBE16(v)
  {
    assert Least(v / 0x100, 1) == [v / 0x100 % 0x100] + Least(v / 0x100 / 0x100, 0);
    assert Most(v / 0x100, 1) == Most(v / 0x100 / 0x100, 0) + [v / 0x100 % 0x100];
  }

  lemma LeastOf32(v: uint32)
    ensures Least(v, 4) == PutLE32(v)
  {
    var a, b, c := v / 0x100, v / 0x100 / 0x100, v / 0x100 / 0x100 / 0x100;
    QuartersOf(v);
    assert Least(c, 1) == [c % 0x100] + Least(c / 0x100, 0);
    assert Least(b, 2) == [b % 0x100] + Least(c, 1);
    assert Least(a, 3) == [a % 0x100] + Least(b, 2);
    assert Least(v, 4) == [v % 0x100] + Least(a, 3);
  }

  lemma MostOf32(v: uint32)
    ensures Most(v, 4) == PutBE32(v)
  {
    var a, b, c := v / 0x100, v / 0x100 / 0x100, v / 0x100 / 0x100 / 0x100;
    QuartersOf(v);
    assert Most(c, 1) == Most(c / 0x100, 0) + [c % 0x100];
    assert Most(b, 2) == Most(c, 1) + [b % 0x100];
    assert Most(a, 3) == Most(b, 2) + [a % 0x100];
    assert Most(v, 4) == Most(a, 3) + [v % 0x100];
  }

  /** The two headers are filled in independently and agree. */
  lemma PackedIsHeader(bodyLen: uint32, seqNo: uint16, echoSeq: uint16, cmdType: uint16)
    ensures Packed(bodyLen, seqNo, echoSeq, cmdType) == HeaderOctets(bodyLen, seqNo, echoSeq, cmdType)
  {
    hide Least;
    hide PutLE16;
    hide PutLE32;
    LeastOf32(bodyLen);
    LeastOf16(seqNo);
    LeastOf16(echoSeq);
    LeastOf16(cmdType);
  }

  /** The Python reference computes the recorder's checksum, on every header and body. */
  lemma ReferenceParity(bodyLen: uint32, seqNo: uint16, echoSeq: uint16, cmdType: uint16, body: seq<byte>)
    ensures ReferenceSum(bodyLen, seqNo, echoSeq, cmdType, body) == Sum(bodyLen, seqNo, echoSeq, cmdType, body)
  {
    hide Embed;
    hide Value16;
    hide Truncate;
    PythonSimulatesGo();
    PackedIsHeader(bodyLen, seqNo, echoSeq, cmdType);
    OverSimulates(PYTHON, GO, Embed, HeaderOctets(bodyLen, seqNo, echoSeq, cmdType), body);
    TruncateEmbeds(GO.State(bodyLen, seqNo, echoSeq, cmdType, body));
  }

  method ReferenceChecksum(bodyLen: uint32, sendCounter: uint16, echo: uint16, pktType: uint16, body: seq<byte>)
    returns (r: uint16)
    ensures r == ReferenceSum(bodyLen, sendCounter, echo, pktType, body)
  {
    var h := PYTHON.Digest(Packed(bodyLen, sendCounter, echo, pktType), body);
    r := h % 0x1_0000;
  }

  // ---- The reference's packets ----

  /** Packing a length of 2^32 or more raises an error. */
  function MakePacket(sendCounter: uint16, echo: uint16, pktType: uint16, body: seq<byte>): Option<seq<byte>> {
    if |body| >= LIMIT then None else
    var sum := ReferenceSum(|body|, sendCounter, echo, pktType, body);
    Some(Most(|body|, 4) + Most(sendCounter, 2) + Most(echo, 2) + Most(pktType, 2) + Most(sum, 2) + body)
  }

  /** Where the reference builds a packet at all, it is octet for octet the encoder's; and the scanner
      reads it back exactly when its body fits the framing. */
  lemma PacketsAreBuilt(sendCounter: uint16, echo: uint16, pktType: uint16, body: seq<byte>)
    ensures MakePacket(sendCounter, echo, pktType, body)
         == if |body| < LIMIT then Some(Framing.Built(Sum, pktType, sendCounter, echo, body)) else None
    ensures |body| < LIMIT ==>
              (Framing.ParseOne(Framing.CHECKED, MakePacket(sendCounter, echo, pktType, body).value)
                 == Framing.Got(Framing.Expected(Sum, pktType, sendCounter, echo, body))
               <==> |body| <= Framing.SPECIAL_THRESHOLD)
  {
    hide ReferenceSum;
    hide Sum;
    if |body| < LIMIT {
      ReferenceParity(|body|, sendCounter, echo, pktType, body);
      assert |body| % LIMIT == |body|;
      MostOf32(|body|);
      LeastOf16(sendCounter);
      LeastOf16(echo);
      LeastOf16(pktType);
      LeastOf16(Sum(|body|, sendCounter, echo, pktType, body));
      Framing.BuildRoundTripsIff(Sum, Framing.CHECKED, pktType, sendCounter, echo, body);
    }
  }
}
