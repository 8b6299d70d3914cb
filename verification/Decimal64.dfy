/**
  64-bit integers as decimal strings, for engines without big integers: printed
  from 10^7 limbs and parsed in chunks of six digits, all in double arithmetic.
  `Exact` stands at every integer result, so that its precondition shows that no
  intermediate value leaves the range in which a double is exact. The two quotients
  that are no integers are rounded, by any rounding as close as that of a double.
*/
module Decimal64 {
  import opened Bytes
  import opened Varint

  const TWO53 := 0x20_0000_0000_0000

  function Exact(n: nat): (m: nat)
    requires n <= TWO53
    ensures m == n
  {
    n
  }

  // ------------------------------------------------------ rounded quotients

  const TWO53_REAL: real := 9007199254740992.0

  predicate KeepsOrder(round: real -> real, x: real, y: real) { x <= y ==> round(x) <= round(y) }

  predicate RightAt(round: real -> real, n: nat) { round(n as real) == n as real }

  predicate CloseAt(round: real -> real, x: real) { TWO53_REAL * (round(x) - x) <= x }

  /** The quotients that occur: zero, or from one part of a limb up to 2^53. */
  predicate Occurs(x: real) { x == 0.0 || 0.0000001 <= x <= TWO53_REAL }

  /** On those monotone, right at integers, and too large by no more than one part in
      2^53; the rounding of a double is. */
  ghost predicate Rounding(round: real -> real) {
    && (forall x, y :: Occurs(x) && Occurs(y) ==> KeepsOrder(round, x, y))
    && (forall n: nat :: n <= TWO53 ==> RightAt(round, n))
    && (forall x :: Occurs(x) ==> CloseAt(round, x))
  }

  /** `Math.floor(a / c)`, the quotient being a double. */
  function FloorQuotient(round: real -> real, a: nat, c: nat): int
    requires c > 0
  {
    round(a as real / c as real).Floor
  }

  lemma Times(x: real, y: real, up: real)
    requires x <= y && up > 0.0
    ensures x * up <= y * up && (x < y ==> x * up < y * up)
  {
  }

  /** `a / c` by its whole part and its remainder, in parts of `up`. */
  lemma Parts(a: real, c: real, n: real, r: real)
    requires c > 0.0 && a == n * c + r
    ensures a / c == n + r * (1.0 / c)
  {
    var up := 1.0 / c;
    assert c * up == 1.0;
    assert a / c == a * up;
    assert a * up == n * (c * up) + r * up;
  }

  lemma AsReals(a: nat, c: nat)
    requires c > 0
    ensures a as real == (a / c) as real * c as real + (a % c) as real
  {
    var n, r := a / c, a % c;
    assert a == n * c + r;
    ProductAsReal(n, c);
  }

  lemma {:induction false} ProductAsReal(n: nat, c: nat)
    ensures (n * c) as real == n as real * c as real
    decreases n
  {
    if n > 0 {
      ProductAsReal(n - 1, c);
      assert n * c == (n - 1) * c + c;
      assert n as real == (n - 1) as real + 1.0;
      Minus(n as real, c as real);
    }
  }

  lemma RealQuotient(a: real, c: real, n: real, r: real)
    requires a == n * c + r && 0.0 <= r <= c - 1.0 && 0.0 <= a < TWO53_REAL
    ensures var x, up := a / c, 1.0 / c; up > 0.0 && n <= x <= n + 1.0 - up && 0.0 <= x < TWO53_REAL * up
  {
    var up := 1.0 / c;
    assert up > 0.0 && c * up == 1.0;
    Parts(a, c, n, r);
    Parts(a, c, 0.0, a);
    Times(0.0, r, up);
    Times(r, c - 1.0, up);
    Minus(c, up);
    Times(0.0, a, up);
    Times(a, TWO53_REAL, up);
  }

  /** The quotient lies between its whole part and the last fraction below the next. */
  lemma Quotient(a: nat, c: nat)
    requires 0 < c && a < TWO53
    ensures var x, up := a as real / c as real, 1.0 / c as real;
      up > 0.0 && (a / c) as real <= x <= (a / c) as real + 1.0 - up && 0.0 <= x < TWO53_REAL * up
  {
    AsReals(a, c);
    RealQuotient(a as real, c as real, (a / c) as real, (a % c) as real);
  }

  lemma Minus(c: real, up: real)
    ensures (c - 1.0) * up == c * up - up
  {
  }

  lemma Inverse(c: real)
    requires c > 0.0
    ensures 1.0 / c > 0.0 && c * (1.0 / c) == 1.0
  {
  }

  lemma SomeOccurs(a: real, c: real)
    requires 1.0 <= c <= 10000000.0 && 1.0 <= a <= TWO53_REAL
    ensures Occurs(a / c)
  {
    var up := 1.0 / c;
    Inverse(c);
    Parts(a, c, 0.0, a);
    Times(c, 10000000.0, up);
    Times(1.0, c, up);
    Times(1.0, a, up);
    Times(up, 1.0, a);
    assert a / c == a * up;
    assert 0.0000001 <= up <= a * up <= a;
  }

  /** A quotient of whole numbers is zero or at least one part of its divisor. */
  lemma QuotientOccurs(a: nat, c: nat)
    requires 0 < c <= LIMB && a < TWO53
    ensures Occurs(a as real / c as real)
  {
    if a > 0 {
      SomeOccurs(a as real, c as real);
    } else {
      Parts(0.0, c as real, 0.0, 0.0);
    }
  }

  lemma WholeOccurs(n: nat)
    requires n <= TWO53
    ensures Occurs(n as real)
  {
  }

  lemma StaysBelow(x: real, y: real, n: nat, up: real)
    requires TWO53_REAL * (y - x) <= x < TWO53_REAL * up && x <= n as real + 1.0 - up && n as real <= y
    ensures y.Floor == n
  {
    assert y - x < up;
    assert n as real <= y < n as real + 1.0;
  }

  lemma QuotientFits(a: nat, c: nat)
    requires 0 < c && a < TWO53
    ensures 0 <= a / c <= TWO53
  {
  }

  lemma RoundedBetween(round: real -> real, x: real, n: nat, up: real)
    requires Rounding(round) && Occurs(x) && n <= TWO53 && n as real <= x <= n as real + 1.0 - up && x < TWO53_REAL * up
    ensures round(x).Floor == n
  {
    WholeOccurs(n);
    assert KeepsOrder(round, n as real, x) && RightAt(round, n) && CloseAt(round, x);
    StaysBelow(x, round(x), n, up);
  }

  /** Rounding does not carry the quotient over an integer. */
  lemma FloorRounded(round: real -> real, a: nat, c: nat)
    requires Rounding(round) && 0 < c <= LIMB && a < TWO53
    ensures FloorQuotient(round, a, c) == a / c
  {
    QuotientFits(a, c);
    Quotient(a, c);
    QuotientOccurs(a, c);
    RoundedBetween(round, a as real / c as real, a / c, 1.0 / c as real);
  }

  // ------------------------------------------------------ decimal numerals

  function Digit(d: nat): char
    requires d < 10
  {
    ('0' as int + d) as char
  }

  predicate IsDigit(c: char) { '0' <= c <= '9' }

  predicate Numeral(s: string) { forall c :: c in s ==> IsDigit(c) }

  function DigitValue(c: char): (d: nat)
    requires IsDigit(c)
    ensures d < 10
  {
    c as int - '0' as int
  }

  /** `Number(s)` of a string of digits, which is 0 of the empty one. */
  function Number(s: string): nat
    requires Numeral(s)
  {
    if s == "" then 0 else 10 * Number(s[..|s| - 1]) + DigitValue(s[|s| - 1])
  }

  /** `String(n)`. */
  function Digits(n: nat): (s: string)
    ensures Numeral(s) && |s| > 0
  {
    if n < 10 then [Digit(n)] else Digits(n / 10) + [Digit(n % 10)]
  }

  /** The last `k` digits of `n`, zeros in front included. */
  function Fixed(n: nat, k: nat): (s: string)
    ensures |s| == k && Numeral(s)
  {
    if k == 0 then "" else Fixed(n / 10, k - 1) + [Digit(n % 10)]
  }

  function Pow10(k: nat): (p: nat)
    ensures p > 0
  {
    if k == 0 then 1 else 10 * Pow10(k - 1)
  }

  function Zeros(k: nat): string { seq(k, _ => '0') }

  lemma {:induction false} NumberOfDigits(n: nat)
    ensures Number(Digits(n)) == n
    decreases n
  {
    var s := Digits(n);
    if n >= 10 {
      NumberOfDigits(n / 10);
      assert s[..|s| - 1] == Digits(n / 10);
    } else {
      assert s[..|s| - 1] == "";
    }
  }

  lemma {:induction false} NumberConcat(s: string, t: string)
    requires Numeral(s) && Numeral(t)
    ensures Numeral(s + t) && Number(s + t) == Number(s) * Pow10(|t|) + Number(t)
    decreases |t|
  {
    if t == "" {
      assert s + t == s;
    } else {
      var u := t[..|t| - 1];
      NumberConcat(s, u);
      assert (s + t)[..|s + t| - 1] == s + u;
      OneMore(Number(s), Pow10(|u|), Number(u), DigitValue(t[|t| - 1]));
    }
  }

  lemma OneMore(a: nat, p: nat, n: nat, d: nat)
    ensures 10 * (a * p + n) + d == a * (10 * p) + (10 * n + d)
  {
    Scale(a, p);
  }

  lemma Scale(a: nat, p: nat)
    ensures 10 * (a * p) == a * (10 * p)
  {
  }

  /** A limb is appended by writing it with all its zeros. */
  lemma {:induction false} DigitsAppend(n: nat, m: nat, k: nat)
    requires n > 0 && m < Pow10(k)
    ensures Digits(n * Pow10(k) + m) == Digits(n) + Fixed(m, k)
    decreases k
  {
    if k == 0 {
      assert Digits(n) + Fixed(m, 0) == Digits(n);
    } else {
      var v := n * Pow10(k) + m;
      Scale(n, Pow10(k - 1));
      assert v / 10 == n * Pow10(k - 1) + m / 10 && v % 10 == m % 10;
      assert v >= 10 by {
        assert n * Pow10(k - 1) >= 1;
      }
      DigitsAppend(n, m / 10, k - 1);
      assert Digits(n) + (Fixed(m / 10, k - 1) + [Digit(m % 10)]) == Digits(n) + Fixed(m / 10, k - 1) + [Digit(m % 10)];
    }
  }

  lemma {:induction false} FixedZero(k: nat)
    ensures Fixed(0, k) == Zeros(k)
    decreases k
  {
    if k > 0 {
      FixedZero(k - 1);
      assert Zeros(k) == Zeros(k - 1) + ['0'];
    }
  }

  lemma {:induction false} PaddedIsFixed(m: nat, k: nat)
    requires k > 0 && m < Pow10(k)
    ensures |Digits(m)| <= k && Zeros(k - |Digits(m)|) + Digits(m) == Fixed(m, k)
    decreases k
  {
    if m < 10 {
      FixedZero(k - 1);
      assert m / 10 == 0;
    } else {
      assert k > 1;
      PaddedIsFixed(m / 10, k - 1);
      var d := Digits(m / 10);
      assert Zeros(k - 1 - |d|) + (d + [Digit(m % 10)]) == Zeros(k - 1 - |d|) + d + [Digit(m % 10)];
    }
  }

  // ------------------------------------------------------------- printer

  /** `x`: a limb in seven places. */
  function Pad(m: nat): string {
    var t := Digits(m);
    Zeros(7)[if |t| <= 7 then |t| else 7..] + t
  }

  lemma PadIsFixed(m: nat)
    requires m < Pow10(7)
    ensures Pad(m) == Fixed(m, 7)
  {
    PaddedIsFixed(m, 7);
    assert Zeros(7)[|Digits(m)|..] == Zeros(7 - |Digits(m)|);
  }

  const LIMB := 10000000

  lemma LimbWidth()
    ensures Pow10(7) == LIMB
  {
    assert Pow10(7) == 10 * Pow10(6) && Pow10(6) == 10 * Pow10(5) && Pow10(5) == 10 * Pow10(4);
  }

  lemma LimbsPrinted(s: nat, o: nat, a: nat)
    requires s > 0 && o < LIMB && a < LIMB
    ensures Digits(s) + Pad(o) + Pad(a) == Digits((s * LIMB + o) * LIMB + a)
  {
    LimbWidth();
    PadIsFixed(o);
    PadIsFixed(a);
    DigitsAppend(s, o, 7);
    DigitsAppend(s * LIMB + o, a, 7);
  }

  /** The 24-, 24- and 16-bit pieces against the decimal limbs: the constants are
      2^24 and 2^48 in base 10^7. */
  lemma LimbSum(lo: nat, r: nat, i: nat)
    ensures lo + r * 0x100_0000 + i * 0x1_0000_0000_0000 ==
      lo + 6777216 * r + 6710656 * i + LIMB * (r + 8147497 * i) + LIMB * LIMB * (2 * i)
  {
  }

  lemma Pieces(p: Pair)
    ensures Value(p) == p.lo % 0x100_0000 + (p.lo / 0x100_0000 + p.hi % 0x1_0000 * 256) * 0x100_0000
                        + p.hi / 0x1_0000 * 0x1_0000_0000_0000
  {
  }

  lemma Carries(a: nat, o: nat, s: nat)
    ensures ((s + (o + a / LIMB) / LIMB) * LIMB + (o + a / LIMB) % LIMB) * LIMB + a % LIMB ==
      a + LIMB * o + LIMB * LIMB * s
  {
    var t := o + a / LIMB;
    assert (s + t / LIMB) * LIMB + t % LIMB == s * LIMB + t;
  }

  /** `next += Math.floor(limb / c), limb %= c`. */
  method CarryOut(round: real -> real, limb: nat, next: nat) returns (next1: nat, limb1: nat)
    requires Rounding(round) && limb < TWO53 && next + limb / LIMB <= TWO53
    ensures next1 == next + limb / LIMB && limb1 == limb % LIMB
  {
    FloorRounded(round, limb, LIMB);
    next1 := Exact(next + FloorQuotient(round, limb, LIMB));
    limb1 := limb % LIMB;
  }

  method PrintLimbs(round: real -> real, s0: nat, o0: nat, a0: nat) returns (str: string)
    requires Rounding(round) && 0 < s0 < TWO32 && o0 < TWO53 / 2 && a0 < TWO53 / 2
    ensures str == Digits(a0 + LIMB * o0 + LIMB * LIMB * s0)
  {
    var s, o, a := s0, o0, a0;
    if a >= LIMB {
      o, a := CarryOut(round, a, o);
    }
    if o >= LIMB {
      s, o := CarryOut(round, o, s);
    }
    Carries(a0, o0, s0);
    LimbsPrinted(s, o, a);
    return Digits(s) + Pad(o) + Pad(a);
  }

  /** `F`. */
  method Print(round: real -> real, p: Pair) returns (str: string)
    requires Rounding(round)
    ensures str == Digits(Value(p))
  {
    if p.hi <= 2097151 {
      return Digits(Exact(Exact(TWO32 * p.hi) + p.lo));
    }
    var r, i := p.lo / 0x100_0000 + p.hi % 0x1_0000 * 256, p.hi / 0x1_0000;
    var a := Exact(Exact(p.lo % 0x100_0000 + Exact(6777216 * r)) + Exact(6710656 * i));
    var o := Exact(r + Exact(8147497 * i));
    var s := Exact(2 * i);
    Pieces(p);
    LimbSum(p.lo % 0x100_0000, r, i);
    str := PrintLimbs(round, s, o, a);
  }

  // -------------------------------------------------------------- parser

  const CHUNK := 1000000

  lemma {:induction false} NumberBound(s: string)
    requires Numeral(s)
    ensures Number(s) < Pow10(|s|)
    decreases |s|
  {
    if s != "" {
      NumberBound(s[..|s| - 1]);
    }
  }

  lemma ChunkWidth()
    ensures Pow10(6) == CHUNK
  {
    assert Pow10(6) == 10 * Pow10(5) && Pow10(5) == 10 * Pow10(4);
  }

  /** `slice(-k, -j)` starts here: at the front when the string is shorter. */
  function Cut(e: string, k: nat): (c: nat)
    ensures c <= |e|
  {
    if |e| > k then |e| - k else 0
  }

  function Joined(r: nat, i: nat): nat { i * TWO32 + r }

  /** What the two accumulators may hold before a chunk. */
  predicate Small(r: nat, i: nat) { r < TWO32 && Joined(r, i) < CHUNK * CHUNK * CHUNK }

  lemma CarryOver(r: nat, i: nat, n: nat)
    ensures Joined((r * CHUNK + n) % TWO32, i * CHUNK + (r * CHUNK + n) / TWO32) == Joined(r, i) * CHUNK + n
  {
    assert (i * CHUNK) * TWO32 == i * TWO32 * CHUNK;
  }

  method Chunk(t: string, r0: nat, i0: nat) returns (r: nat, i: nat)
    requires Numeral(t) && |t| <= 6 && Small(r0, i0)
    ensures r < TWO32 && Joined(r, i) == Joined(r0, i0) * CHUNK + Number(t)
  {
    NumberBound(t);
    SmallChunk(t);
    var n := Number(t);
    i := Exact(i0 * CHUNK);
    r := Exact(Exact(r0 * CHUNK) + n);
    CarryOver(r0, i0, n);
    if r >= TWO32 {
      i := Exact(i + r / TWO32);
      r := r % TWO32;
    }
  }

  lemma {:induction false} SmallChunk(t: string)
    requires Numeral(t) && |t| <= 6
    ensures Number(t) < CHUNK
  {
    NumberBound(t);
    PowMono(|t|, 6);
    ChunkWidth();
  }

  lemma {:induction false} PowMono(j: nat, k: nat)
    requires j <= k
    ensures Pow10(j) <= Pow10(k)
    decreases k
  {
    if j < k {
      PowMono(j, k - 1);
    }
  }

  /** What lies within the last 24 digits and before the last `k`. */
  function Head(e: string, k: nat): string
    requires k <= 24
  {
    e[Cut(e, 24)..Cut(e, k)]
  }

  /** A further chunk: if it is short, nothing came before it. */
  lemma NextChunk(e: string, k: nat)
    requires Numeral(e) && 6 <= k <= 24
    ensures |e[Cut(e, k)..Cut(e, k - 6)]| <= 6
    ensures Number(Head(e, k - 6)) == Number(Head(e, k)) * CHUNK + Number(e[Cut(e, k)..Cut(e, k - 6)])
  {
    var h, t := Head(e, k), e[Cut(e, k)..Cut(e, k - 6)];
    assert Head(e, k - 6) == h + t;
    NumberConcat(h, t);
    ChunkWidth();
    if |t| < 6 {
      assert h == "";
    }
  }

  lemma HeadBound(e: string, k: nat)
    requires Numeral(e) && 6 <= k <= 24
    ensures Number(Head(e, k)) < CHUNK * CHUNK * CHUNK
  {
    NumberBound(Head(e, k));
    PowMono(|Head(e, k)|, 18);
    Eighteen();
  }

  lemma Eighteen()
    ensures Pow10(18) == CHUNK * CHUNK * CHUNK
  {
    ChunkWidth();
    assert Pow10(9) == 1000 * Pow10(6) && Pow10(12) == 1000 * Pow10(9);
    assert Pow10(15) == 1000 * Pow10(12) && Pow10(18) == 1000 * Pow10(15);
  }

  /** `P`: the two's complement, half by half. */
  function Negated(r: word, i: nat): Pair {
    if r != 0 then Pair(TWO32 - r, TWO32 - 1 - i % TWO32) else Pair(0, (TWO32 - i % TWO32) % TWO32)
  }

  lemma NegatedValue(r: word, i: nat)
    ensures Value(Negated(r, i)) == (TWO64 - Joined(r, i) % TWO64) % TWO64
  {
    assert Joined(r, i) == TWO64 * (i / TWO32) + (i % TWO32 * TWO32 + r);
    assert Joined(r, i) % TWO64 == i % TWO32 * TWO32 + r;
  }

  lemma KeptValue(r: word, i: nat)
    ensures Value(Pair(r, i % TWO32)) == Joined(r, i) % TWO64
  {
    assert Joined(r, i) == TWO64 * (i / TWO32) + Value(Pair(r, i % TWO32));
  }

  /** The chunk of six digits whose end is `k - 6` from the end. */
  method ChunkAt(e: string, k: nat, r0: nat, i0: nat) returns (r: nat, i: nat)
    requires Numeral(e) && 6 <= k <= 24 && r0 < TWO32 && Joined(r0, i0) == Number(Head(e, k))
    ensures r < TWO32 && Joined(r, i) == Number(Head(e, k - 6))
  {
    NextChunk(e, k);
    HeadBound(e, k);
    r, i := Chunk(e[Cut(e, k)..Cut(e, k - 6)], r0, i0);
  }

  /** The digits of `_`, in four chunks from the last 24. */
  method Accumulate(e: string) returns (r: nat, i: nat)
    requires Numeral(e)
    ensures r < TWO32 && Joined(r, i) == Number(e[Cut(e, 24)..])
  {
    assert Head(e, 24) == "";
    r, i := ChunkAt(e, 24, 0, 0);
    r, i := ChunkAt(e, 18, r, i);
    r, i := ChunkAt(e, 12, r, i);
    r, i := ChunkAt(e, 6, r, i);
    assert Head(e, 0) == e[Cut(e, 24)..];
  }

  /** A sign and digits, as the callers' patterns require. */
  predicate Integer(s: string) {
    s != "" && Numeral(if s[0] == '-' then s[1..] else s)
  }

  /** The number `s` stands for, of which `_` keeps the last 24 digits. */
  function Meant(s: string): int
    requires Integer(s)
  {
    var t := if s[0] == '-' then s[1..] else s;
    var n := Number(t[Cut(t, 24)..]);
    if s[0] == '-' then 0 - n else n
  }

  /** `_`: the number modulo 2^64. */
  method Parse(s: string) returns (p: Pair)
    requires Integer(s)
    ensures Value(p) == Meant(s) % TWO64
  {
    var negative := s[0] == '-';
    var e := if negative then s[1..] else s;
    var r, i := Accumulate(e);
    if negative {
      NegatedValue(r, i);
      ModNegative(Joined(r, i));
      return Negated(r, i);
    }
    KeptValue(r, i);
    return Pair(r, i % TWO32);
  }

  lemma ModNegative(n: nat)
    ensures (0 - n) % TWO64 == (TWO64 - n % TWO64) % TWO64
  {
    var q := n / TWO64;
    assert 0 - n == TWO64 * (-q - 1) + (TWO64 - n % TWO64);
  }

  // ---------------------------------------------------------- round trips

  lemma Magnitude(p: Pair)
    requires p.hi >= TWO32 / 2
    ensures Signed(Value(p)) < 0 && Value(Negated(p.lo, p.hi)) == 0 - Signed(Value(p))
  {
    NegatedValue(p.lo, p.hi);
  }

  /** `dec` of the fallback: a sign, then the magnitude. */
  method PrintSigned(round: real -> real, p: Pair) returns (s: string)
    requires Rounding(round)
    ensures var v := Signed(Value(p)); s == if v < 0 then "-" + Digits(0 - v) else Digits(v)
  {
    if p.hi >= TWO32 / 2 {
      Magnitude(p);
      s := Print(round, Negated(p.lo, p.hi));
      return "-" + s;
    }
    s := Print(round, p);
  }

  lemma SignedModulo(v: nat)
    requires v < TWO64
    ensures Signed(v) % TWO64 == v
  {
    assert Signed(v) == v || Signed(v) == TWO64 * -1 + v;
  }

  lemma MeantOfDigits(n: nat)
    requires n < TWO64
    ensures Integer(Digits(n)) && Meant(Digits(n)) == n
    ensures Integer("-" + Digits(n)) && Meant("-" + Digits(n)) == 0 - n
  {
    NumberOfDigits(n);
    FewDigits(n, 24);
    assert ("-" + Digits(n))[1..] == Digits(n);
    assert Digits(n)[Cut(Digits(n), 24)..] == Digits(n);
    assert Digits(n)[0] != '-' by {
      assert Digits(n)[0] in Digits(n);
    }
  }

  lemma FewDigits(n: nat, k: nat)
    requires n < TWO64 && k == 24
    ensures |Digits(n)| <= k
  {
    assert TWO64 < Pow10(24) by {
      Eighteen();
      assert Pow10(24) == CHUNK * Pow10(18);
    }
    PaddedIsFixed(n, 24);
  }

  lemma SmallMagnitude(p: Pair)
    ensures var v := Signed(Value(p)); (if v < 0 then 0 - v else v) < TWO64
  {
  }

  method PrintSignedThenParse(round: real -> real, p: Pair) returns (q: Pair)
    requires Rounding(round)
    ensures q == p
  {
    var s := PrintSigned(round, p);
    ghost var v := Signed(Value(p));
    SmallMagnitude(p);
    MeantOfDigits(if v < 0 then 0 - v else v);
    q := Parse(s);
    SignedModulo(Value(p));
    HalvesUnique(q, p);
  }

  /** Parsing what was printed gives the same halves, unsigned and signed. */
  method PrintThenParse(round: real -> real, p: Pair) returns (q: Pair, r: Pair)
    requires Rounding(round)
    ensures q == p && r == p
  {
    var s := Print(round, p);
    MeantOfDigits(Value(p));
    q := Parse(s);
    HalvesUnique(q, p);
    r := PrintSignedThenParse(round, p);
  }
}
