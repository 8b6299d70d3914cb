/**
  Base 128 varints (the Protocol Buffers Encoding specification) of 64-bit values
  that are held as two 32-bit halves, and the zig-zag form of signed ones.
  `Encode` and `Parse` are the format; `Writer` and `Reader` work on the halves,
  in shifts of 7 that straddle the word boundary in the fifth byte.
*/
module Varint {
  import opened Bytes

  type word = x: int | 0 <= x < TWO32

  const TWO64 := TWO32 * TWO32

  /** Both halves as unsigned words. */
  datatype Pair = Pair(lo: word, hi: word)

  function Value(p: Pair): (v: nat)
    ensures v < TWO64
  {
    p.hi * TWO32 + p.lo
  }

  function Pow128(k: nat): (p: nat)
    ensures p > 0
  {
    if k == 0 then 1 else 128 * Pow128(k - 1)
  }

  // ------------------------------------------------------------- format

  function Encode(v: nat): (s: seq<byte>)
    ensures |s| > 0
  {
    if v < 128 then [v] else [128 + v % 128] + Encode(v / 128)
  }

  datatype Read = Done(value: nat, used: nat) | InvalidVarint | PrematureEof

  /** A varint at the start of `s`, `k` of its at most ten bytes being behind us. */
  function Parse(s: seq<byte>, k: nat): Read
    requires k <= 10
    decreases 10 - k
  {
    if k == 10 then InvalidVarint
    else if s == [] then PrematureEof
    else if s[0] < 128 then Done(s[0], 1)
    else
      match Parse(s[1..], k + 1)
      case Done(v, n) => Done(s[0] % 128 + 128 * v, n + 1)
      case error => error
  }

  // ------------------------------------------------- laws of the format

  /** What was written is read, whatever follows, and nothing more is consumed. */
  lemma {:induction false} ParseEncode(v: nat, k: nat, rest: seq<byte>)
    requires k < 10 && v < Pow128(10 - k)
    ensures Parse(Encode(v) + rest, k) == Done(v, |Encode(v)|)
    decreases v
  {
    if v >= 128 {
      assert (Encode(v) + rest)[1..] == Encode(v / 128) + rest;
      assert Pow128(10 - k) == 128 * Pow128(9 - k);
      ParseEncode(v / 128, k + 1, rest);
    }
  }

  lemma {:induction false} EncodeAtMost(v: nat, j: nat)
    requires 0 < j && v < Pow128(j)
    ensures |Encode(v)| <= j
    decreases j
  {
    if v >= 128 {
      assert Pow128(j) == 128 * Pow128(j - 1);
      EncodeAtMost(v / 128, j - 1);
    }
  }

  lemma {:induction false} EncodeMonotone(v: nat, w: nat)
    requires v <= w
    ensures |Encode(v)| <= |Encode(w)|
    decreases w
  {
    if v >= 128 {
      EncodeMonotone(v / 128, w / 128);
    }
  }

  /** No accepted byte string for the value is shorter, and none of the same
      length differs. */
  lemma {:induction false} EncodeMinimal(s: seq<byte>, k: nat)
    requires k <= 10 && Parse(s, k).Done?
    ensures var r := Parse(s, k);
      r.used <= |s| && |Encode(r.value)| <= r.used && (|Encode(r.value)| == r.used ==> s[..r.used] == Encode(r.value))
    decreases 10 - k
  {
    var r := Parse(s, k);
    if s[0] < 128 {
      assert s[..1] == [s[0]];
    } else {
      EncodeMinimal(s[1..], k + 1);
      var t := Parse(s[1..], k + 1);
      assert s[..r.used] == [s[0]] + s[1..][..t.used];
      if r.value >= 128 {
        assert r.value / 128 == t.value && r.value % 128 == s[0] % 128;
      }
    }
  }

  lemma SixtyFourFits(v: nat)
    requires v < TWO64
    ensures v < Pow128(10)
  {
  }

  lemma Reduced(v: nat, m: nat)
    requires m > 0
    ensures v % m <= v
  {
  }

  /** No byte string that reads as `v` in 64 bits is shorter than what is written. */
  lemma WrittenShortest(v: nat, s: seq<byte>)
    requires Parse(s, 0).Done? && Parse(s, 0).value % TWO64 == v
    ensures |Encode(v)| <= Parse(s, 0).used
  {
    Reduced(Parse(s, 0).value, TWO64);
    EncodeMinimal(s, 0);
    EncodeMonotone(v, Parse(s, 0).value);
  }

  /** Every 64-bit value takes at most ten bytes and is read back exactly. */
  lemma VarintSound(v: nat, rest: seq<byte>)
    requires v < TWO64
    ensures |Encode(v)| <= 10
    ensures Parse(Encode(v) + rest, 0) == Done(v, |Encode(v)|)
  {
    SixtyFourFits(v);
    EncodeAtMost(v, 10);
    ParseEncode(v, 0, rest);
  }

  // ----------------------------------------------------------- zig-zag

  function Signed(v: nat): int
    requires v < TWO64
  {
    if v < TWO64 / 2 then v else v - TWO64
  }

  function ZigZag(x: int): nat { if x >= 0 then 2 * x else -2 * x - 1 }

  function UnZigZag(v: nat): int { if v % 2 == 0 then v / 2 else -(v / 2) - 1 }

  /** `w ^ n` for the arithmetic shift of a sign bit: all ones or all zeros. */
  function Flip(w: word, negative: bool): word { if negative then TWO32 - 1 - w else w }

  /** `sint64` of the writer, on the halves of the two's complement. */
  function ZigZagHalves(p: Pair): Pair {
    var negative := p.hi >= TWO32 / 2;
    Pair(Flip(p.lo * 2 % TWO32, negative), Flip(p.hi * 2 % TWO32 + p.lo / (TWO32 / 2), negative))
  }

  /** `sint64` of the reader. */
  function UnZigZagHalves(p: Pair): Pair {
    var negative := p.lo % 2 == 1;
    Pair(Flip(p.lo / 2 + p.hi % 2 * (TWO32 / 2), negative), Flip(p.hi / 2, negative))
  }

  lemma ZigZagInverse(x: int, v: nat)
    ensures UnZigZag(ZigZag(x)) == x && ZigZag(UnZigZag(v)) == v
  {
  }

  /** The split halves carry the zig-zag of the signed value they stand for. */
  lemma ZigZagHalvesCorrect(p: Pair)
    ensures Value(ZigZagHalves(p)) == ZigZag(Signed(Value(p)))
  {
    var n, m := p.lo / (TWO32 / 2), p.hi / (TWO32 / 2);
    assert p.lo * 2 % TWO32 == p.lo * 2 - n * TWO32;
    assert p.hi * 2 % TWO32 == p.hi * 2 - m * TWO32;
  }

  lemma UnZigZagHalvesCorrect(p: Pair)
    ensures Signed(Value(UnZigZagHalves(p))) == UnZigZag(Value(p))
  {
    var v := Value(p);
    assert v % 2 == p.lo % 2;
    assert v / 2 == p.hi / 2 * TWO32 + p.hi % 2 * (TWO32 / 2) + p.lo / 2;
  }

  lemma HalvesUnique(p: Pair, q: Pair)
    requires Value(p) == Value(q) || Value(p) == Value(q) % TWO64
    ensures p == q
  {
  }

  lemma SignedUnique(p: Pair, q: Pair)
    requires Signed(Value(p)) == Signed(Value(q))
    ensures p == q
  {
    HalvesUnique(p, q);
  }

  /** A signed value written by `sint64` is what `sint64` reads. */
  lemma SignedRoundTrip(p: Pair)
    ensures UnZigZagHalves(ZigZagHalves(p)) == p
  {
    ZigZagHalvesCorrect(p);
    UnZigZagHalvesCorrect(ZigZagHalves(p));
    ZigZagInverse(Signed(Value(p)), 0);
    HalvesUnique(UnZigZagHalves(ZigZagHalves(p)), p);
  }

  // ------------------------------------------------------------ writer

  /** The shifts that occur, as factors. */
  const SHIFTS := {0, 3, 7, 10, 14, 17, 21, 24, 28, 31}

  function Bit(n: nat): nat
    requires n in SHIFTS
  {
    if n == 0 then 1 else if n == 3 then 8 else if n == 7 then 128 else if n == 10 then 1024
    else if n == 14 then 16384 else if n == 17 then 131072 else if n == 21 then 0x20_0000
    else if n == 24 then 0x100_0000 else if n == 28 then 0x1000_0000 else 0x8000_0000
  }

  lemma Apart(d: nat, p: nat, q: nat)
    requires p < q
    ensures d * q >= d * p + d
  {
    var gap: nat := q - p - 1;
    assert q == p + 1 + gap;
    assert d * q == d * p + d + d * gap;
  }

  lemma Quotient(d: nat, q: nat, r: nat)
    requires r < d
    ensures (d * q + r) / d == q
  {
    var x := d * q + r;
    var p := x / d;
    assert x == d * p + x % d;
    if p < q {
      Apart(d, p, q);
    } else if q < p {
      Apart(d, q, p);
    }
  }

  lemma Spread(d: nat, q: nat, r: nat)
    ensures d * (128 * q + r) == d * 128 * q + d * r
  {
    assert d * (128 * q) == d * 128 * q;
  }

  lemma AtMost(d: nat, r: nat)
    requires r <= 127
    ensures d * r <= 127 * d
  {
    assert d * (127 - r) >= 0;
  }

  /** Shifting by seven more. */
  lemma SevenMore(v: nat, d: nat)
    requires d > 0
    ensures v / d / 128 == v / (d * 128)
  {
    var q, r := v / d / 128, v / d % 128;
    Spread(d, q, r);
    AtMost(d, r);
    assert v == d * 128 * q + (d * r + v % d) by {
      assert v == d * (v / d) + v % d;
      assert v / d == 128 * q + r;
    }
    Quotient(d * 128, q, d * r + v % d);
  }

  /** Shifting right by fewer than 25 bits: both halves move on their own. */
  lemma ShiftedRight(p: Pair, d: nat, m: nat)
    requires d > 0 && TWO32 == d * m * 128
    ensures Value(p) / d == 128 * (p.hi * m) + p.lo / d
  {
    var q := p.lo / d;
    assert p.hi * TWO32 == d * (128 * (p.hi * m));
    assert Value(p) == d * (128 * (p.hi * m) + q) + p.lo % d;
    Quotient(d, 128 * (p.hi * m) + q, p.lo % d);
  }

  lemma LowBits(x: nat, y: nat, hi: nat, m: nat)
    requires x == 128 * (hi * m) + y && m > 0
    ensures x % 128 == y % 128 && (x < 128 <==> y < 128 && hi == 0)
  {
    if hi > 0 {
      assert hi * m >= 1;
    }
  }

  /** Seven bits of the low half, and whether anything is left above them. */
  lemma LowGroup(p: Pair, r: nat)
    requires r in {0, 7, 14, 21}
    ensures Value(p) / Bit(r) < 128 <==> p.lo / Bit(r) < 128 && p.hi == 0
    ensures Value(p) / Bit(r) % 128 == p.lo / Bit(r) % 128
    ensures Value(p) / Bit(r) / 128 == Value(p) / Bit(r + 7)
  {
    var d, m := Bit(r), if r == 0 then 0x200_0000 else if r == 7 then 0x4_0000 else if r == 14 then 2048 else 16;
    ShiftedRight(p, d, m);
    LowBits(Value(p) / d, p.lo / d, p.hi, m);
    SevenMore(Value(p), d);
  }

  /** One round of the loop over the low half. */
  lemma LowRound(p: Pair, r: nat, buf: seq<byte>, all: seq<byte>)
    requires r in {0, 7, 14, 21} && buf + Encode(Value(p) / Bit(r)) == all
    ensures p.lo / Bit(r) / 128 == 0 && p.hi == 0 ==> buf + [p.lo / Bit(r) % 256] == all
    ensures !(p.lo / Bit(r) / 128 == 0 && p.hi == 0) ==>
      buf + [128 + p.lo / Bit(r) % 128] + Encode(Value(p) / Bit(r + 7)) == all
  {
    LowGroup(p, r);
    Group(Value(p) / Bit(r), buf);
  }

  lemma Group(v: nat, buf: seq<byte>)
    ensures buf + Encode(v) == if v < 128 then buf + [v] else buf + [128 + v % 128] + Encode(v / 128)
  {
  }

  /** The byte that straddles the halves. */
  lemma MiddleGroup(p: Pair)
    ensures Value(p) / Bit(28) < 128 <==> p.hi / 8 == 0
    ensures Value(p) / Bit(28) % 128 == p.lo / Bit(28) + p.hi % 8 * 16
    ensures Value(p) / Bit(28) / 128 == p.hi / Bit(3)
  {
    assert Value(p) / Bit(28) == p.hi * 16 + p.lo / Bit(28);
  }

  lemma MiddleBits(p: Pair)
    ensures var b := p.lo / Bit(28) % 16 + p.hi % 8 * 16;
      b < 128 && b % 256 == b % 128 == b == p.lo / Bit(28) + p.hi % 8 * 16
  {
    assert p.lo / Bit(28) < 16;
  }

  lemma MiddleRound(p: Pair, buf: seq<byte>, all: seq<byte>)
    requires buf + Encode(Value(p) / Bit(28)) == all
    ensures var b := p.lo / Bit(28) % 16 + p.hi % 8 * 16;
      b < 128 && if p.hi / 8 == 0 then buf + [b % 256] == all else buf + [128 + b % 128] + Encode(p.hi / Bit(3)) == all
  {
    MiddleGroup(p);
    MiddleBits(p);
    Group(Value(p) / Bit(28), buf);
  }

  lemma HighRound(hi: word, s: nat, buf: seq<byte>, all: seq<byte>)
    requires s in {3, 10, 17, 24} && buf + Encode(hi / Bit(s)) == all
    ensures hi / Bit(s) / 128 == 0 ==> buf + [hi / Bit(s) % 256] == all
    ensures hi / Bit(s) / 128 != 0 ==> buf + [128 + hi / Bit(s) % 128] + Encode(hi / Bit(s + 7)) == all
  {
    SevenMore(hi, Bit(s));
    Group(hi / Bit(s), buf);
  }

  class Writer {
    var buf: seq<byte>

    constructor ()
      ensures buf == []
    {
      buf := [];
    }

    /** The low eight bits, the top one set when more follow. */
    method Push(i: nat, more: bool)
      modifies this
      ensures buf == old(buf) + [if more then 128 + i % 128 else i % 256]
    {
      buf := buf + [if more then 128 + i % 128 else i % 256];
    }

    /** The high half from bit 3 on. */
    method HighGroups(hi: word)
      modifies this
      ensures buf == old(buf) + Encode(hi / Bit(3))
    {
      ghost var all := buf + Encode(hi / Bit(3));
      var s := 3;
      while s < 31
        invariant s in {3, 10, 17, 24, 31}
        invariant buf + Encode(hi / Bit(s)) == all
      {
        HighRound(hi, s, buf, all);
        var r := hi / Bit(s);
        Push(r, r / 128 != 0);
        if r / 128 == 0 {
          return;
        }
        s := s + 7;
      }
      buf := buf + [hi / Bit(31) % 2];
    }

    /** One byte of the low half; the last one if nothing is left. */
    method LowByte(p: Pair, r: nat, ghost all: seq<byte>) returns (done: bool)
      requires r in {0, 7, 14, 21} && buf + Encode(Value(p) / Bit(r)) == all
      modifies this
      ensures if done then buf == all else buf + Encode(Value(p) / Bit(r + 7)) == all
    {
      LowRound(p, r, buf, all);
      var i := p.lo / Bit(r);
      done := i / 128 == 0 && p.hi == 0;
      Push(i, !done);
    }

    /** The groups within the low half; `done` when nothing is left above them. */
    method LowGroups(p: Pair, ghost all: seq<byte>) returns (done: bool)
      requires buf + Encode(Value(p)) == all
      modifies this
      ensures if done then buf == all else buf + Encode(Value(p) / Bit(28)) == all
    {
      var r := 0;
      while r < 28
        invariant r in {0, 7, 14, 21, 28}
        invariant buf + Encode(Value(p) / Bit(r)) == all
      {
        done := LowByte(p, r, all);
        if done {
          return;
        }
        r := r + 7;
      }
      return false;
    }

    /** The 64-bit varint of the value the halves stand for. */
    method Varint64(p: Pair)
      modifies this
      ensures buf == old(buf) + Encode(Value(p))
    {
      ghost var all := buf + Encode(Value(p));
      var done := LowGroups(p, all);
      if done {
        return;
      }
      MiddleRound(p, buf, all);
      var b := p.lo / Bit(28) % 16 + p.hi % 8 * 16;
      Push(b, p.hi / 8 != 0);
      if p.hi / 8 != 0 {
        HighGroups(p.hi);
      }
    }

    method Sint64(p: Pair)
      modifies this
      ensures buf == old(buf) + Encode(ZigZag(Signed(Value(p))))
    {
      ZigZagHalvesCorrect(p);
      Varint64(ZigZagHalves(p));
    }
  }

  // ------------------------------------------------------------ reader

  datatype Answer = Halves(pair: Pair) | Bad(error: Read)

  /** `k` bytes with value `acc` are behind us, `r` is what the rest reads as. */
  function Resume(acc: nat, k: nat, r: Read): Read {
    match r
    case Done(v, n) => Done(acc + Pow128(k) * v, n + k)
    case error => error
  }

  lemma Distribute(p: nat, a: nat, v: nat)
    ensures p * (a + 128 * v) == p * a + 128 * p * v
  {
  }

  lemma ResumeStep(acc: nat, k: nat, s: seq<byte>)
    requires k < 10 && s != [] && s[0] >= 128
    ensures Resume(acc, k, Parse(s, k)) == Resume(acc + Pow128(k) * (s[0] % 128), k + 1, Parse(s[1..], k + 1))
  {
    assert Pow128(k + 1) == 128 * Pow128(k);
    var r := Parse(s[1..], k + 1);
    if r.Done? {
      Distribute(Pow128(k), s[0] % 128, r.value);
    }
  }

  /** `k` bytes from `start` of total `acc` are read, all with more to come. */
  predicate Pending(buf: seq<byte>, start: nat, k: nat, acc: nat, want: Read) {
    k <= 10 && start + k <= |buf| && Resume(acc, k, Parse(buf[start + k..], k)) == want
  }

  lemma OneByte(buf: seq<byte>, start: nat, k: nat, acc: nat, want: Read, b: byte)
    requires k < 10 && Pending(buf, start, k, acc, want)
    requires b == if start + k < |buf| then buf[start + k] else 0
    ensures b >= 128 ==> Pending(buf, start, k + 1, acc + Pow128(k) * (b % 128), want)
    ensures b < 128 ==> want == if start + k < |buf| then Done(acc + Pow128(k) * b, k + 1) else PrematureEof
  {
    if b >= 128 {
      ResumeStep(acc, k, buf[start + k..]);
      assert buf[start + k..][1..] == buf[start + k + 1..];
    }
  }

  lemma StartPending(buf: seq<byte>, start: nat)
    requires start <= |buf|
    ensures Pending(buf, start, 0, 0, Parse(buf[start..], 0))
  {
  }

  lemma MiddleRoom(lo: nat, b: byte)
    requires lo < Bit(28)
    ensures lo + b % 16 * Bit(28) < TWO32 && b % 128 / 16 < Bit(3)
    ensures lo + Pow128(4) * (b % 128) == lo + b % 16 * Bit(28) + TWO32 * (b % 128 / 16)
  {
    assert b % 128 == b % 128 / 16 * 16 + b % 16;
    assert Pow128(4) == Bit(28);
  }

  lemma HighRoom(n: nat, k: nat, hi: nat, g: nat)
    requires n in {3, 10, 17, 24, 31} && n == 7 * k - 32 && hi < Bit(n) && g < 128
    ensures Pow128(k) == TWO32 * Bit(n)
    ensures n < 31 ==> hi + g * Bit(n) < Bit(n + 7) < TWO32
  {
    assert Pow128(5) == TWO32 * 8;
  }

  lemma HighTotal(lo: word, hi: word, g: nat, d: nat, p: nat)
    requires p == TWO32 * d
    ensures var h := (hi + g * d) % TWO32;
      (Value(Pair(lo, hi)) + p * g) % TWO64 == Value(Pair(lo, h)) &&
      (hi + g * d < TWO32 ==> Value(Pair(lo, hi)) + p * g == Value(Pair(lo, h)))
  {
    var w := hi + g * d;
    assert p * g == TWO32 * (g * d);
    Split(lo, w, w / TWO32, w % TWO32);
  }

  lemma Split(lo: word, w: nat, q: nat, h: word)
    requires w == TWO32 * q + h
    ensures (lo + TWO32 * w) % TWO64 == Value(Pair(lo, h))
  {
    assert lo + TWO32 * w == TWO64 * q + Value(Pair(lo, h));
  }

  /** Seven more bits fit behind `n` without touching those already there. */
  lemma LowRoom(n: nat, k: nat, lo: nat, g: nat)
    requires n in {0, 7, 14, 21} && n == 7 * k && lo < Bit(n) && g < 128
    ensures Bit(n) == Pow128(k) && g * Bit(n) == Pow128(k) * g
    ensures lo + g * Bit(n) < Bit(n + 7) < TWO32
  {
  }

  /** The varint ended with the byte at `start + k`, if that byte exists. */
  predicate Ended(buf: seq<byte>, start: nat, k: nat, p: Pair, want: Read) {
    if start + k < |buf| then want.Done? && want.used == k + 1 && want.value % TWO64 == Value(p)
    else want == PrematureEof
  }

  lemma LowEnds(buf: seq<byte>, start: nat, k: nat, lo: nat, want: Read, b: byte, d: nat, w: word)
    requires k < 10 && d == Pow128(k) && w == lo + d * b && Pending(buf, start, k, lo, want)
    requires b < 128 && b == if start + k < |buf| then buf[start + k] else 0
    ensures Ended(buf, start, k, Pair(w, 0), want)
  {
    OneByte(buf, start, k, lo, want, b);
    Unreduced(Pair(w, 0));
  }

  lemma LowContinues(buf: seq<byte>, start: nat, k: nat, lo: nat, want: Read, b: byte, d: nat, w: word)
    requires k < 10 && d == Pow128(k) && w == lo + d * (b % 128) && Pending(buf, start, k, lo, want)
    requires b >= 128 && start + k < |buf| && b == buf[start + k]
    ensures Pending(buf, start, k + 1, w, want)
  {
    OneByte(buf, start, k, lo, want, b);
  }

  /** `lo |= (127 & b) << n`: seven bits that lie behind those already there. */
  method TakeLow(lo: word, n: nat, b: byte, ghost buf: seq<byte>, ghost start: nat, ghost k: nat, ghost want: Read)
    returns (w: word)
    requires n in {0, 7, 14, 21} && n == 7 * k && lo < Bit(n) && Pending(buf, start, k, lo, want)
    requires b == if start + k < |buf| then buf[start + k] else 0
    ensures w < Bit(n + 7)
    ensures b < 128 ==> Ended(buf, start, k, Pair(w, 0), want)
    ensures b >= 128 ==> Pending(buf, start, k + 1, w, want)
  {
    LowRoom(n, k, lo, b % 128);
    w := lo + b % 128 * Bit(n);
    if b < 128 {
      LowEnds(buf, start, k, lo, want, b, Pow128(k), w);
    } else {
      LowContinues(buf, start, k, lo, want, b, Pow128(k), w);
    }
  }

  lemma MiddleEnds(buf: seq<byte>, start: nat, lo: nat, want: Read, b: byte, p: Pair)
    requires lo < Bit(28) && Pending(buf, start, 4, lo, want)
    requires b < 128 && b == if start + 4 < |buf| then buf[start + 4] else 0
    requires Value(p) == lo + Pow128(4) * b
    ensures Ended(buf, start, 4, p, want)
  {
    OneByte(buf, start, 4, lo, want, b);
    Unreduced(p);
  }

  lemma MiddleContinues(buf: seq<byte>, start: nat, lo: nat, want: Read, b: byte, p: Pair)
    requires lo < Bit(28) && Pending(buf, start, 4, lo, want)
    requires b >= 128 && start + 4 < |buf| && b == buf[start + 4]
    requires Value(p) == lo + Pow128(4) * (b % 128)
    ensures Pending(buf, start, 5, Value(p), want)
  {
    OneByte(buf, start, 4, lo, want, b);
  }

  lemma MiddleByte(buf: seq<byte>, start: nat, lo: nat, want: Read, b: byte)
    requires lo < Bit(28) && Pending(buf, start, 4, lo, want)
    requires b == if start + 4 < |buf| then buf[start + 4] else 0
    ensures var w, hi := lo + b % 16 * Bit(28), b % 128 / 16;
      w < TWO32 && hi < Bit(3) &&
      if b < 128 then Ended(buf, start, 4, Pair(w, hi), want) else Pending(buf, start, 5, Value(Pair(w, hi)), want)
  {
    MiddleRoom(lo, b);
    var p := Pair(lo + b % 16 * Bit(28), b % 128 / 16);
    if b < 128 {
      MiddleEnds(buf, start, lo, want, b, p);
    } else {
      MiddleContinues(buf, start, lo, want, b, p);
    }
  }

  lemma Unreduced(p: Pair)
    ensures Value(p) % TWO64 == p.lo + TWO32 * p.hi
  {
  }

  lemma HighEnds(buf: seq<byte>, start: nat, k: nat, n: nat, lo: word, hi: word, want: Read, b: byte)
    requires n in {3, 10, 17, 24, 31} && n == 7 * k - 32 && hi < Bit(n)
    requires Pending(buf, start, k, Value(Pair(lo, hi)), want)
    requires b < 128 && b == if start + k < |buf| then buf[start + k] else 0
    ensures Ended(buf, start, k, Pair(lo, (hi + b % 128 * Bit(n)) % TWO32), want)
  {
    OneByte(buf, start, k, Value(Pair(lo, hi)), want, b);
    HighRoom(n, k, hi, b);
    HighTotal(lo, hi, b, Bit(n), Pow128(k));
  }

  lemma HighContinues(buf: seq<byte>, start: nat, k: nat, n: nat, lo: word, hi: word, want: Read, b: byte)
    requires n in {3, 10, 17, 24, 31} && n == 7 * k - 32 && hi < Bit(n)
    requires Pending(buf, start, k, Value(Pair(lo, hi)), want)
    requires b >= 128 && start + k < |buf| && b == buf[start + k]
    ensures var h := (hi + b % 128 * Bit(n)) % TWO32;
      if n == 31 then want == InvalidVarint else h < Bit(n + 7) && Pending(buf, start, k + 1, Value(Pair(lo, h)), want)
  {
    OneByte(buf, start, k, Value(Pair(lo, hi)), want, b);
    HighRoom(n, k, hi, b % 128);
    HighTotal(lo, hi, b % 128, Bit(n), Pow128(k));
  }

  class Reader {
    const buf: seq<byte>
    var pos: nat

    constructor (s: seq<byte>)
      ensures buf == s && pos == 0
    {
      buf := s;
      pos := 0;
    }

    /** Past the end the source reads `undefined`, whose bits are all zero. */
    method Next() returns (b: byte)
      modifies this
      ensures pos == old(pos) + 1 && b == if old(pos) < |buf| then buf[old(pos)] else 0
    {
      b := if pos < |buf| then buf[pos] else 0;
      pos := pos + 1;
    }

    /** The last byte is in: `assertBounds`, then the two halves. */
    method Finish(lo: word, hi: word) returns (a: Answer)
      ensures a == if pos > |buf| then Bad(PrematureEof) else Halves(Pair(lo, hi))
    {
      return if pos > |buf| then Bad(PrematureEof) else Halves(Pair(lo, hi));
    }

    /** The answer and the cursor that `want` asks for, from `start`. */
    predicate Answers(a: Answer, start: nat, want: Read)
      reads this
    {
      match want
      case Done(v, n) => a.Halves? && Value(a.pair) == v % TWO64 && pos == start + n
      case error => a == Bad(error)
    }

    /** The four bytes within the low half; `r < 128` says the varint ended here. */
    method LowBytes(ghost want: Read) returns (lo: word, r: byte)
      requires Pending(buf, pos, 0, 0, want)
      modifies this
      ensures r >= 128 ==> lo < Bit(28) && pos == old(pos) + 4 && Pending(buf, old(pos), 4, lo, want)
      ensures r < 128 ==> pos > old(pos) && Ended(buf, old(pos), pos - 1 - old(pos), Pair(lo, 0), want)
    {
      ghost var start, k := pos, 0;
      var n := 0;
      lo, r := 0, 255;
      while n < 28
        invariant k <= 4 && n == 7 * k && pos == start + k && lo < Bit(n) && r >= 128
        invariant Pending(buf, start, k, lo, want)
      {
        r := Next();
        lo := TakeLow(lo, n, r, buf, start, k, want);
        if r < 128 {
          return;
        }
        n := n + 7;
        k := k + 1;
      }
    }

    /** The five bytes within the high half, the last of which has room for one bit. */
    method HighBytes(lo: word, hi0: word, ghost start: nat, ghost want: Read) returns (a: Answer)
      requires hi0 < Bit(3) && pos == start + 5 && Pending(buf, start, 5, Value(Pair(lo, hi0)), want)
      modifies this
      ensures Answers(a, start, want)
    {
      var hi: word := hi0;
      var n := 3;
      ghost var k := 5;
      while n <= 31
        invariant n in {3, 10, 17, 24, 31, 38} && n == 7 * k - 32 && pos == start + k
        invariant if n == 38 then want == InvalidVarint
                  else hi < Bit(n) && Pending(buf, start, k, Value(Pair(lo, hi)), want)
      {
        var r := Next();
        if r < 128 {
          HighEnds(buf, start, k, n, lo, hi, want, r);
        } else {
          HighContinues(buf, start, k, n, lo, hi, want, r);
        }
        hi := (hi + r % 128 * Bit(n)) % TWO32;
        if r < 128 {
          a := Finish(lo, hi);
          return;
        }
        n := n + 7;
        k := k + 1;
      }
      return Bad(InvalidVarint);
    }

    method Varint64() returns (a: Answer)
      requires pos <= |buf|
      modifies this
      ensures Answers(a, old(pos), Parse(buf[old(pos)..], 0))
    {
      ghost var start, want := pos, Parse(buf[pos..], 0);
      StartPending(buf, pos);
      var lo, r := LowBytes(want);
      if r < 128 {
        a := Finish(lo, 0);
        return;
      }
      var b := Next();
      MiddleByte(buf, start, lo, want, b);
      var word := lo + b % 16 * Bit(28);
      if b < 128 {
        a := Finish(word, b % 128 / 16);
        return;
      }
      a := HighBytes(word, b % 128 / 16, start, want);
    }

    method Sint64() returns (a: Answer)
      requires pos <= |buf|
      modifies this
      ensures match Parse(buf[old(pos)..], 0)
        case Done(v, n) => a.Halves? && Signed(Value(a.pair)) == UnZigZag(v % TWO64) && pos == old(pos) + n
        case error => a == Bad(error)
    {
      a := Varint64();
      if a.Halves? {
        UnZigZagHalvesCorrect(a.pair);
        a := Halves(UnZigZagHalves(a.pair));
      }
    }
  }

  /** What the writer put in front of `more`, the reader takes back, and no more. */
  method WriteThenRead(p: Pair, more: seq<byte>) returns (a: Answer, used: nat)
    ensures a == Halves(p) && used == |Encode(Value(p))| <= 10
  {
    var w := new Writer();
    w.Varint64(p);
    assert w.buf == Encode(Value(p));
    VarintSound(Value(p), more);
    var r := new Reader(w.buf + more);
    assert r.buf[0..] == w.buf + more;
    a := r.Varint64();
    used := r.pos;
    HalvesUnique(a.pair, p);
  }

  lemma Below64(p: Pair)
    ensures Value(p) < TWO64 && Value(p) % TWO64 == Value(p)
  {
  }

  /** The same for signed values, through zig-zag. */
  method WriteThenReadSigned(p: Pair, more: seq<byte>) returns (a: Answer)
    ensures a == Halves(p)
  {
    var w := new Writer();
    w.Sint64(p);
    ZigZagHalvesCorrect(p);
    var v := Value(ZigZagHalves(p));
    assert w.buf == Encode(v);
    VarintSound(v, more);
    var r := new Reader(w.buf + more);
    assert r.buf[0..] == w.buf + more;
    Below64(ZigZagHalves(p));
    a := r.Sint64();
    ZigZagInverse(Signed(Value(p)), v);
    SignedUnique(a.pair, p);
  }
}
