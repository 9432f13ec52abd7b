/** Byte-wise string order, decimal formatting with zero padding, and sorting by name. */
module Text {

  // ---- The order of Go's string comparison ----

  predicate Less(s: string, t: string)
    decreases |s|
  {
    t != [] && (s == [] || s[0] < t[0] || (s[0] == t[0] && Less(s[1..], t[1..])))
  }

  lemma {:induction false} LessIrreflexive(s: string)
    ensures !Less(s, s)
    decreases |s|
  {
    if s != [] {
      LessIrreflexive(s[1..]);
    }
  }

  lemma {:induction false} LessTransitive(s: string, t: string, u: string)
    requires Less(s, t) && Less(t, u)
    ensures Less(s, u)
    decreases |s|
  {
    if s != [] && s[0] == t[0] == u[0] {
      LessTransitive(s[1..], t[1..], u[1..]);
    }
  }

  lemma {:induction false} LessTotal(s: string, t: string)
    ensures s == t || Less(s, t) || Less(t, s)
    decreases |s|
  {
    if s != [] && t != [] && s[0] == t[0] {
      LessTotal(s[1..], t[1..]);
      assert s == [s[0]] + s[1..] && t == [t[0]] + t[1..];
    }
  }

  lemma LessAsymmetric(s: string, t: string)
    requires Less(s, t)
    ensures !Less(t, s)
  {
    if Less(t, s) {
      LessTransitive(s, t, s);
      LessIrreflexive(s);
    }
  }

  lemma {:induction false} LessAfterPrefix(p: string, s: string, t: string)
    ensures Less(p + s, p + t) <==> Less(s, t)
    decreases |p|
  {
    if p == [] {
      assert p + s == s && p + t == t;
    } else {
      assert (p + s)[1..] == p[1..] + s && (p + t)[1..] == p[1..] + t;
      LessAfterPrefix(p[1..], s, t);
    }
  }

  /** Between strings of one length a difference decides before any suffix is looked at. */
  lemma {:induction false} LessBeforeSuffix(s: string, t: string, u: string, v: string)
    requires |s| == |t| && Less(s, t)
    ensures Less(s + u, t + v)
    decreases |s|
  {
    if s[0] == t[0] {
      assert (s + u)[1..] == s[1..] + u && (t + v)[1..] == t[1..] + v;
      LessBeforeSuffix(s[1..], t[1..], u, v);
    }
  }

  // ---- Decimal formatting ----

  function Digit(d: nat): char
    requires d < 10
  {
    "0123456789"[d]
  }

  predicate IsDigit(c: char) { '0' <= c <= '9' }

  function DigitValue(c: char): nat
    requires IsDigit(c)
  {
    c as int - '0' as int
  }

  predicate Digits(s: string) {
    forall i | 0 <= i < |s| :: IsDigit(s[i])
  }

  /** `%d` */
  function Decimal(n: nat): (s: string)
    ensures s != [] && Digits(s)
    decreases n
  {
    if n < 10 then [Digit(n)] else Decimal(n / 10) + [Digit(n % 10)]
  }

  function Number(s: string): nat
    requires Digits(s)
    decreases |s|
  {
    if s == [] then 0 else 10 * Number(s[..|s| - 1]) + DigitValue(s[|s| - 1])
  }

  lemma DigitRoundTrip(d: nat)
    requires d < 10
    ensures IsDigit(Digit(d)) && DigitValue(Digit(d)) == d
  {
  }

  lemma {:induction false} DecimalRoundTrip(n: nat)
    ensures Number(Decimal(n)) == n
    decreases n
  {
    var s := Decimal(n);
    DigitRoundTrip(n % 10);
    if n >= 10 {
      assert s[..|s| - 1] == Decimal(n / 10);
      DecimalRoundTrip(n / 10);
    } else {
      assert s[..|s| - 1] == [];
    }
  }

  function Zeros(k: nat): (s: string)
    ensures |s| == k && Digits(s)
  {
    seq(k, _ => '0')
  }

  /** `%0wd` */
  function Padded(n: nat, w: nat): (s: string)
    ensures s != [] && Digits(s)
  {
    var d := Decimal(n);
    if |d| >= w then d else Zeros(w - |d|) + d
  }

  lemma {:induction false} NumberAfterZeros(k: nat, s: string)
    requires Digits(s)
    ensures Number(Zeros(k) + s) == Number(s)
    decreases |s|, k
  {
    var z := Zeros(k) + s;
    if s != [] {
      assert z[..|z| - 1] == Zeros(k) + s[..|s| - 1];
      NumberAfterZeros(k, s[..|s| - 1]);
    } else if k > 0 {
      assert z[..|z| - 1] == Zeros(k - 1) + s;
      NumberAfterZeros(k - 1, s);
    }
  }

  /** Padded numbers can be read back, so distinct numbers have distinct forms at every width. */
  lemma PaddedRoundTrip(n: nat, w: nat)
    ensures Number(Padded(n, w)) == n
  {
    hide Decimal;
    hide Number;
    hide Zeros;
    DecimalRoundTrip(n);
    var d := Decimal(n);
    if |d| < w {
      NumberAfterZeros(w - |d|, d);
    }
  }

  /** Among digit strings of one length, the string order is the numeric order. */
  lemma {:induction false} NumericOrder(s: string, t: string)
    requires Digits(s) && Digits(t) && |s| == |t| && Number(s) < Number(t)
    ensures Less(s, t)
    decreases |s|
  {
    var n := |s| - 1;
    var s0, t0 := s[..n], t[..n];
    assert s == s0 + [s[n]] && t == t0 + [t[n]];
    if Number(s0) < Number(t0) {
      NumericOrder(s0, t0);
      LessBeforeSuffix(s0, t0, [s[n]], [t[n]]);
    } else {
      if s0 != t0 {
        if Number(s0) > Number(t0) {
          assert false;
        }
        NumberInjective(s0, t0);
      }
      LessAfterPrefix(s0, [s[n]], [t[n]]);
    }
  }

  lemma {:induction false} NumberInjective(s: string, t: string)
    requires Digits(s) && Digits(t) && |s| == |t| && Number(s) == Number(t)
    ensures s == t
    decreases |s|
  {
    if s != [] {
      var n := |s| - 1;
      NumberInjective(s[..n], t[..n]);
      assert s == s[..n] + [s[n]] && t == t[..n] + [t[n]];
    }
  }

  function Power10(k: nat): nat { if k == 0 then 1 else 10 * Power10(k - 1) }

  lemma {:induction false} DecimalWidth(n: nat, k: nat)
    requires k > 0
    ensures |Decimal(n)| <= k <==> n < Power10(k)
    decreases k
  {
    if k > 1 {
      if n < 10 {
        Power10Grows(k);
      } else {
        DecimalWidth(n / 10, k - 1);
      }
    } else {
      assert Power10(1) == 10;
      if n >= 10 {
        assert |Decimal(n / 10)| >= 1;
      }
    }
  }

  lemma {:induction false} Power10Grows(k: nat)
    requires k > 0
    ensures Power10(k) >= 10
  {
    if k > 1 {
      Power10Grows(k - 1);
    }
  }

  lemma LastColon(a: string, d: string, i: nat)
    requires Digits(d)
    requires |a| < i < |a + ":" + d|
    ensures (a + ":" + d)[i] != ':'
  {
    assert (a + ":" + d)[i] == d[i - |a| - 1];
  }

  /** `a:d` with digits d determines both parts, whatever a contains. */
  lemma SplitAtLastColon(a: string, d: string, b: string, e: string)
    requires Digits(d) && Digits(e) && a + ":" + d == b + ":" + e
    ensures a == b && d == e
  {
    var s := a + ":" + d;
    assert s[|a|] == ':' && s[|b|] == ':';
    if |a| != |b| {
      if |a| < |b| { LastColon(a, d, |b|); } else { LastColon(b, e, |a|); }
    }
    assert s[..|a|] == a && s[..|b|] == b && s[|a| + 1..] == d && s[|b| + 1..] == e;
  }

  // ---- Sorting by name ----

  predicate Sorted(ss: seq<string>) {
    forall i, j | 0 <= i < j < |ss| :: !Less(ss[j], ss[i])
  }

  function Insert(x: string, ss: seq<string>): seq<string> {
    if ss == [] || !Less(ss[0], x) then [x] + ss else [ss[0]] + Insert(x, ss[1..])
  }

  function Sort(ss: seq<string>): seq<string> {
    if ss == [] then [] else Insert(ss[0], Sort(ss[1..]))
  }

  lemma {:induction false} InsertPermutes(x: string, ss: seq<string>)
    ensures multiset(Insert(x, ss)) == multiset(ss) + multiset{x}
    decreases |ss|
  {
    if ss == [] || !Less(ss[0], x) {
      assert multiset([x] + ss) == multiset{x} + multiset(ss);
    } else {
      InsertPermutes(x, ss[1..]);
      assert ss == [ss[0]] + ss[1..];
    }
  }

  predicate NoneBelow(x: string, ss: seq<string>) {
    forall y | y in ss :: !Less(y, x)
  }

  lemma SortedCons(x: string, ss: seq<string>)
    requires Sorted(ss) && NoneBelow(x, ss)
    ensures Sorted([x] + ss)
  {
    var r := [x] + ss;
    forall i, j | 0 <= i < j < |r|
      ensures !Less(r[j], r[i])
    {
      assert r[j] == ss[j - 1];
      assert r[j] in ss;
    }
  }

  lemma BelowHead(x: string, ss: seq<string>)
    requires Sorted(ss) && ss != [] && !Less(ss[0], x)
    ensures NoneBelow(x, ss)
  {
    forall y | y in ss
      ensures !Less(y, x)
    {
      if Less(y, x) && y != ss[0] {
        LessTotal(ss[0], y);
        LessTransitive(ss[0], y, x);
      }
    }
  }

  lemma {:induction false} InsertSorts(x: string, ss: seq<string>)
    requires Sorted(ss)
    ensures Sorted(Insert(x, ss))
    decreases |ss|
  {
    if ss == [] {
    } else if !Less(ss[0], x) {
      BelowHead(x, ss);
      SortedCons(x, ss);
    } else {
      InsertSorts(x, ss[1..]);
      InsertPermutes(x, ss[1..]);
      var r := Insert(x, ss[1..]);
      LessAsymmetric(ss[0], x);
      forall y | y in r
        ensures !Less(y, ss[0])
      {
        assert y in multiset(r);
      }
      SortedCons(ss[0], r);
    }
  }

  lemma {:induction false} SortSorts(ss: seq<string>)
    ensures Sorted(Sort(ss)) && multiset(Sort(ss)) == multiset(ss)
    decreases |ss|
  {
    if ss != [] {
      SortSorts(ss[1..]);
      InsertSorts(ss[0], Sort(ss[1..]));
      InsertPermutes(ss[0], Sort(ss[1..]));
      assert ss == [ss[0]] + ss[1..];
    }
  }

  lemma HeadIsLeast(a: seq<string>, x: string)
    requires a != [] && Sorted(a) && x in multiset(a)
    ensures !Less(x, a[0])
  {
    var i :| 0 <= i < |a| && a[i] == x;
    LessIrreflexive(x);
  }

  lemma HeadsAgree(a: seq<string>, b: seq<string>)
    requires a != [] && b != [] && Sorted(a) && Sorted(b) && multiset(a) == multiset(b)
    ensures a[0] == b[0]
  {
    assert a[0] in multiset(a) && b[0] in multiset(b);
    HeadIsLeast(a, b[0]);
    HeadIsLeast(b, a[0]);
    LessTotal(a[0], b[0]);
  }

  lemma WithoutHead(a: seq<string>)
    requires a != []
    ensures multiset(a[1..]) == multiset(a) - multiset{a[0]}
  {
    assert a == [a[0]] + a[1..];
  }

  /** There is one sorted arrangement of given strings, so any sorting algorithm returns it. */
  lemma {:induction false} SortedIsUnique(a: seq<string>, b: seq<string>)
    requires Sorted(a) && Sorted(b) && multiset(a) == multiset(b)
    ensures a == b
    decreases |a|
  {
    if a == [] || b == [] {
      assert |a| == |multiset(a)| && |b| == |multiset(b)|;
    } else {
      HeadsAgree(a, b);
      WithoutHead(a);
      WithoutHead(b);
      SortedIsUnique(a[1..], b[1..]);
      assert a == [a[0]] + a[1..] && b == [b[0]] + b[1..];
    }
  }
}
