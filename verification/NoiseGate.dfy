/**
  The noise gate: a target per block, from the block's level and the hold counter,
  and a gain that approaches it sample by sample, the same on every channel.
  Samples and coefficients are exact reals; the level in dBFS is given.
*/
module NoiseGate {

  function Pow(c: real, i: nat): real { if i == 0 then 1.0 else c * Pow(c, i - 1) }

  /** The envelope: the gain `i` samples into a block that starts with gain `g`. */
  function Envelope(c: real, g: real, target: real, i: nat): real {
    if i == 0 then g else Smooth(c, Envelope(c, g, target, i - 1), target)
  }

  function Smooth(c: real, g: real, target: real): real { c * g + (1.0 - c) * target }

  function Scaled(x: real, g: real): real { x * g }

  function Abs(x: real): real { if x < 0.0 then -x else x }

  // ---------------------------------------------------------- envelope

  lemma SmoothOnce(c: real, p: real, d: real, target: real)
    ensures Smooth(c, target + Scaled(p, d), target) == target + Scaled(c * p, d)
  {
    assert c * (p * d) == c * p * d;
  }

  lemma {:induction false} ClosedForm(c: real, g: real, target: real, i: nat)
    ensures Envelope(c, g, target, i) == target + Scaled(Pow(c, i), g - target)
    decreases i
  {
    if i > 0 {
      ClosedForm(c, g, target, i - 1);
      SmoothOnce(c, Pow(c, i - 1), g - target, target);
    }
  }

  lemma {:induction false} PowBounds(c: real, i: nat)
    requires 0.0 < c < 1.0
    ensures 0.0 < Pow(c, i) <= 1.0 && (i > 0 ==> Pow(c, i) < 1.0)
    decreases i
  {
    if i > 0 {
      PowBounds(c, i - 1);
      Shrinks(c, Pow(c, i - 1));
    }
  }

  lemma Shrinks(c: real, p: real)
    requires 0.0 < c < 1.0 && 0.0 < p <= 1.0
    ensures 0.0 < c * p < 1.0 && c * p < p
  {
    assert p - c * p == (1.0 - c) * p;
  }

  lemma {:induction false} PowAdds(c: real, i: nat, j: nat)
    ensures Pow(c, i + j) == Pow(c, i) * Pow(c, j)
    decreases j
  {
    if j > 0 {
      PowAdds(c, i, j - 1);
      Regroup(c, Pow(c, i), Pow(c, j - 1));
    }
  }

  lemma Regroup(c: real, p: real, q: real)
    ensures c * (p * q) == p * (c * q)
  {
  }

  lemma Product(x: real, y: real)
    ensures x > 0.0 && y > 0.0 ==> x * y > 0.0
    ensures x >= 0.0 && y >= 0.0 ==> x * y >= 0.0
  {
  }

  lemma LessTimes(q: real, p: real, m: real)
    requires q < p && m > 0.0
    ensures Scaled(q, m) < Scaled(p, m)
  {
    var d := p - q;
    Product(d, m);
    assert (q + d) * m == q * m + d * m;
  }

  lemma NearerUp(q: real, p: real, m: real)
    requires 0.0 < q < p <= 1.0 && m > 0.0
    ensures 0.0 < Scaled(q, m) < Scaled(p, m) <= m
  {
    Product(q, m);
    LessTimes(q, p, m);
    if p < 1.0 {
      LessTimes(p, 1.0, m);
    }
  }

  lemma Mirrored(p: real, d: real)
    ensures Scaled(p, -d) == -Scaled(p, d)
  {
  }

  /** Scaling down by `q` below `p` brings a distance nearer to zero. */
  lemma Nearer(q: real, p: real, d: real)
    requires 0.0 < q < p <= 1.0
    ensures d > 0.0 ==> 0.0 < Scaled(q, d) < Scaled(p, d) <= d
    ensures d < 0.0 ==> 0.0 > Scaled(q, d) > Scaled(p, d) >= d
    ensures d == 0.0 ==> Scaled(q, d) == Scaled(p, d) == 0.0
  {
    if d > 0.0 {
      NearerUp(q, p, d);
    } else if d < 0.0 {
      NearerUp(q, p, -d);
      Mirrored(q, d);
      Mirrored(p, d);
    }
  }

  lemma PowFalls(c: real, i: nat)
    requires 0.0 < c < 1.0
    ensures 0.0 < Pow(c, i + 1) < Pow(c, i) <= 1.0
  {
    PowBounds(c, i);
    Shrinks(c, Pow(c, i));
    assert Pow(c, i + 1) == c * Pow(c, i);
  }

  /** The gain lies between where it was and the target, strictly nearer the latter
      with every sample, and never reaches or passes it. */
  lemma NoOvershoot(c: real, g: real, target: real, i: nat)
    requires 0.0 < c < 1.0
    ensures var e, e' := Envelope(c, g, target, i), Envelope(c, g, target, i + 1);
      && (g < target ==> g <= e < e' < target)
      && (g > target ==> target < e' < e <= g)
      && (g == target ==> e == target)
  {
    ClosedForm(c, g, target, i);
    ClosedForm(c, g, target, i + 1);
    PowFalls(c, i);
    Nearer(Pow(c, i + 1), Pow(c, i), g - target);
  }

  /** What a gain `g` has become after `i` samples of a shut gate, */
  function Fading(u: Tuning, g: real, i: nat): real { Pow(u.release, i) * g }

  /** and of an open one. */
  function Rising(u: Tuning, g: real, i: nat): real { 1.0 - Pow(u.attack, i) * (1.0 - g) }

  /** Towards silence the envelope is a power of the release coefficient. Towards full
      level it is one of the attack coefficient; at full level it stays. */
  lemma Directions(u: Tuning, g: real, i: nat)
    requires Unit(g)
    ensures Envelope(u.release, g, 0.0, i) == Fading(u, g, i)
    ensures Envelope(if 1.0 > g then u.attack else u.release, g, 1.0, i) == Rising(u, g, i)
  {
    ClosedForm(u.release, g, 0.0, i);
    if g < 1.0 {
      ClosedForm(u.attack, g, 1.0, i);
      Mirrored(Pow(u.attack, i), 1.0 - g);
    } else {
      ClosedForm(u.release, g, 1.0, i);
    }
  }

  predicate Unit(g: real) { 0.0 <= g <= 1.0 }

  lemma {:induction false} EnvelopeUnit(c: real, g: real, target: real, i: nat)
    requires 0.0 < c < 1.0 && Unit(g) && Unit(target)
    ensures Unit(Envelope(c, g, target, i))
    decreases i
  {
    if i > 0 {
      EnvelopeUnit(c, g, target, i - 1);
      Mixed(c, Envelope(c, g, target, i - 1), target);
    }
  }

  lemma Mixed(c: real, e: real, t: real)
    requires 0.0 < c < 1.0 && Unit(e) && Unit(t)
    ensures Unit(Smooth(c, e, t))
  {
    Product(c, e);
    Product(1.0 - c, t);
    Product(c, 1.0 - e);
    Product(1.0 - c, 1.0 - t);
  }

  lemma Quieter(x: real, g: real)
    requires Unit(g)
    ensures Abs(Scaled(x, g)) <= Abs(x)
  {
    Product(Abs(x), g);
    Product(Abs(x), 1.0 - g);
  }

  // -------------------------------------------------------------- blocks

  /** One call of `process`: the two parameters, the level, the size, and whether
      there is an output to write. */
  datatype Block = Block(enabled: bool, level: real, threshold: real, n: nat, wired: bool) {
    predicate Loud() { enabled && level >= threshold }
    predicate Quiet() { enabled && level < threshold }
  }

  datatype Gate = Gate(gain: real, hold: int)

  datatype Tuning = Tuning(holdLength: nat, attack: real, release: real) {
    predicate Ok() { 0.0 < attack < 1.0 && 0.0 < release < 1.0 }
  }

  function Target(s: Gate, b: Block): real {
    if b.Quiet() && s.hold <= 0 then 0.0 else 1.0
  }

  function HoldAfter(u: Tuning, s: Gate, b: Block): int {
    if b.Loud() then u.holdLength
    else if b.Quiet() && s.hold > 0 then s.hold - b.n
    else s.hold
  }

  function Coef(u: Tuning, s: Gate, b: Block): real {
    if Target(s, b) > s.gain then u.attack else u.release
  }

  function After(u: Tuning, s: Gate, b: Block): Gate {
    Gate(if b.wired then Envelope(Coef(u, s, b), s.gain, Target(s, b), b.n) else s.gain, HoldAfter(u, s, b))
  }

  function AfterAll(u: Tuning, s: Gate, blocks: seq<Block>): Gate {
    if blocks == [] then s else After(u, AfterAll(u, s, blocks[..|blocks| - 1]), blocks[|blocks| - 1])
  }

  const OPEN := Gate(1.0, 0)

  /** Over any run the gain is a fraction and the hold never exceeds its length. */
  lemma {:induction false} RunBounded(u: Tuning, blocks: seq<Block>)
    requires u.Ok()
    ensures Unit(AfterAll(u, OPEN, blocks).gain) && AfterAll(u, OPEN, blocks).hold <= u.holdLength
    decreases |blocks|
  {
    if blocks != [] {
      RunBounded(u, blocks[..|blocks| - 1]);
      UnitKept(u, AfterAll(u, OPEN, blocks[..|blocks| - 1]), blocks[|blocks| - 1]);
    }
  }

  /** With the gate on, the level below the threshold and nothing left of the hold, the
      gain falls by the release coefficient with every sample written; in every other
      case it rises. A block without an output leaves it as it is. */
  lemma GainExactly(u: Tuning, s: Gate, b: Block)
    requires u.Ok() && Unit(s.gain)
    ensures After(u, s, b).gain ==
      if !b.wired then s.gain
      else if b.enabled && b.level < b.threshold && s.hold <= 0 then Fading(u, s.gain, b.n) else Rising(u, s.gain, b.n)
  {
    Directions(u, s.gain, b.n);
  }

  lemma UnitKept(u: Tuning, s: Gate, b: Block)
    requires u.Ok() && Unit(s.gain)
    ensures Unit(After(u, s, b).gain)
  {
    EnvelopeUnit(Coef(u, s, b), s.gain, Target(s, b), b.n);
  }

  lemma {:induction false} UnitRuns(u: Tuning, s: Gate, blocks: seq<Block>)
    requires u.Ok() && Unit(s.gain)
    ensures Unit(AfterAll(u, s, blocks).gain)
    decreases |blocks|
  {
    if blocks != [] {
      UnitRuns(u, s, blocks[..|blocks| - 1]);
      UnitKept(u, AfterAll(u, s, blocks[..|blocks| - 1]), blocks[|blocks| - 1]);
    }
  }

  function CoefFor(u: Tuning, g: real, target: real): real { if target > g then u.attack else u.release }

  /** `m` samples from gain `g` towards the target, all with one coefficient. */
  predicate Approached(u: Tuning, g: real, target: real, m: nat, e: real) {
    e == target + Scaled(Pow(CoefFor(u, g, target), m), g - target)
  }

  lemma Onward(u: Tuning, g: real, target: real, m: nat, n: nat, e: real)
    requires u.Ok() && Approached(u, g, target, m, e)
    ensures Approached(u, g, target, m + n, Envelope(CoefFor(u, e, target), e, target, n))
  {
    var c := CoefFor(u, g, target);
    PowBounds(c, m);
    SameSide(Pow(c, m), g, target);
    assert CoefFor(u, e, target) == c;
    OnwardOne(c, g, target, m, n, e);
  }

  lemma OnwardOne(c: real, g: real, target: real, m: nat, n: nat, e: real)
    requires e == target + Scaled(Pow(c, m), g - target)
    ensures Envelope(c, e, target, n) == target + Scaled(Pow(c, m + n), g - target)
  {
    ClosedForm(c, e, target, n);
    PowAdds(c, m, n);
    Twice(Pow(c, m), Pow(c, n), g, target);
  }

  lemma NothingYet(u: Tuning, g: real, target: real)
    ensures Approached(u, g, target, 0, g)
  {
  }

  function Samples(blocks: seq<Block>): nat {
    if blocks == [] then 0 else Samples(blocks[..|blocks| - 1]) + blocks[|blocks| - 1].n
  }

  /** Every block of the run is written and has this target. */
  ghost predicate Steady(u: Tuning, s: Gate, blocks: seq<Block>, target: real) {
    forall k :: 0 <= k < |blocks| ==> blocks[k].wired && Target(AfterAll(u, s, blocks[..k]), blocks[k]) == target
  }

  lemma SteadyFront(u: Tuning, s: Gate, blocks: seq<Block>, target: real)
    requires blocks != [] && Steady(u, s, blocks, target)
    ensures Steady(u, s, blocks[..|blocks| - 1], target)
  {
    var front := blocks[..|blocks| - 1];
    forall k | 0 <= k < |front| ensures front[k].wired && Target(AfterAll(u, s, front[..k]), front[k]) == target {
      assert front[..k] == blocks[..k];
    }
  }

  /** While the target stays the same, blocks of any size join up: the gain is what
      one long block would give, with the coefficient chosen at its start. */
  lemma {:induction false} BlocksJoin(u: Tuning, s: Gate, blocks: seq<Block>, target: real)
    requires u.Ok() && Steady(u, s, blocks, target)
    ensures Approached(u, s.gain, target, Samples(blocks), AfterAll(u, s, blocks).gain)
    decreases |blocks|
  {
    if blocks == [] {
      NothingYet(u, s.gain, target);
    } else {
      var front, b := blocks[..|blocks| - 1], blocks[|blocks| - 1];
      SteadyFront(u, s, blocks, target);
      BlocksJoin(u, s, front, target);
      Onward(u, s.gain, target, Samples(front), b.n, AfterAll(u, s, front).gain);
    }
  }

  lemma SameSide(p: real, g: real, target: real)
    requires p > 0.0
    ensures target > target + Scaled(p, g - target) <==> target > g
  {
    Product(p, g - target);
    Product(p, target - g);
  }

  lemma Twice(p: real, q: real, g: real, target: real)
    ensures Scaled(q, target + Scaled(p, g - target) - target) == Scaled(p * q, g - target)
  {
    Regroup(q, p, g - target);
  }

  // ------------------------------------------------------------- silence

  /** Every block is written, with the gate on and the level below the threshold. */
  predicate AllQuiet(blocks: seq<Block>) {
    forall b :: b in blocks ==> b.wired && b.enabled && b.level < b.threshold
  }

  lemma FadesOn(u: Tuning, g: real, m: nat, n: nat)
    ensures Fading(u, Fading(u, g, m), n) == Fading(u, g, m + n)
  {
    PowAdds(u.release, m, n);
    Regroup(Pow(u.release, n), Pow(u.release, m), g);
  }

  /** A gate that is shut when quiet blocks come goes on fading through all of them:
      after `m` samples, in blocks of any sizes, the gain is `release^m` of what it was. */
  lemma {:induction false} ShutFades(u: Tuning, s: Gate, blocks: seq<Block>)
    requires u.Ok() && Unit(s.gain) && s.hold <= 0 && AllQuiet(blocks)
    ensures AfterAll(u, s, blocks) == Gate(Fading(u, s.gain, Samples(blocks)), s.hold)
    decreases |blocks|
  {
    if blocks != [] {
      var front, b := blocks[..|blocks| - 1], blocks[|blocks| - 1];
      assert b in blocks;
      ShutFades(u, s, front);
      UnitRuns(u, s, front);
      GainExactly(u, AfterAll(u, s, front), b);
      FadesOn(u, s.gain, Samples(front), b.n);
    }
  }

  lemma BernoulliStep(p: real, c: real, m: real)
    requires 0.0 < c < 1.0 && p > 0.0 && m >= 0.0 && p * (1.0 + m * (1.0 - c)) <= 1.0
    ensures c * p * (1.0 + (m + 1.0) * (1.0 - c)) <= 1.0
  {
    var e := 1.0 - c;
    var a, b := c * (1.0 + (m + 1.0) * e), 1.0 + m * e;
    Product(e, e);
    Product(m + 1.0, e * e);
    assert b - a == (m + 1.0) * (e * e);
    Product(p, b - a);
    assert c * p * (1.0 + (m + 1.0) * e) == p * a;
    assert p * b - p * a == p * (b - a);
  }

  lemma {:induction false} Bernoulli(c: real, m: nat)
    requires 0.0 < c < 1.0
    ensures Pow(c, m) * (1.0 + m as real * (1.0 - c)) <= 1.0
    decreases m
  {
    if m > 0 {
      Bernoulli(c, m - 1);
      PowBounds(c, m - 1);
      BernoulliStep(Pow(c, m - 1), c, (m - 1) as real);
    }
  }

  lemma Under(p: real, w: real, bound: real)
    requires p > 0.0 && w >= 0.0 && p * (1.0 + w) <= 1.0 && w * bound >= 1.0
    ensures p < bound
  {
    Product(p - bound, w);
    assert (p - bound) * w == p * w - w * bound;
  }

  lemma PowUnder(c: real, m: nat, bound: real)
    requires 0.0 < c < 1.0 && m as real * (1.0 - c) * bound >= 1.0
    ensures Pow(c, m) < bound
  {
    Bernoulli(c, m);
    PowBounds(c, m);
    Product(m as real, 1.0 - c);
    Under(Pow(c, m), m as real * (1.0 - c), bound);
  }

  lemma NoMore(u: Tuning, g: real, m: nat)
    requires u.Ok() && Unit(g)
    ensures Fading(u, g, m) <= Pow(u.release, m)
  {
    var p := Pow(u.release, m);
    PowBounds(u.release, m);
    Product(p, 1.0 - g);
    assert p * (1.0 - g) == p - p * g;
  }

  lemma FadesUnder(u: Tuning, g: real, m: nat, bound: real)
    requires u.Ok() && Unit(g) && LongEnough(u, m, bound)
    ensures Fading(u, g, m) < bound
  {
    NoMore(u, g, m);
    PowUnder(u.release, m, bound);
  }

  predicate LongEnough(u: Tuning, m: nat, bound: real) { m as real * (1.0 - u.release) * bound >= 1.0 }

  /** So it comes below any bound, at the latest after `1 / ((1 - release) * bound)` samples. */
  lemma ShutSilences(u: Tuning, s: Gate, blocks: seq<Block>, bound: real)
    requires u.Ok() && Unit(s.gain) && s.hold <= 0 && AllQuiet(blocks)
    requires LongEnough(u, Samples(blocks), bound)
    ensures AfterAll(u, s, blocks).gain < bound
  {
    ShutFades(u, s, blocks);
    FadesUnder(u, s.gain, Samples(blocks), bound);
  }

  // ---------------------------------------------------------------- hold

  /** How many of the blocks are quiet. */
  function QuietCount(blocks: seq<Block>): nat {
    if blocks == [] then 0
    else
      var b := blocks[|blocks| - 1];
      QuietCount(blocks[..|blocks| - 1]) + (if b.enabled && b.level < b.threshold then 1 else 0)
  }

  function CeilDiv(a: nat, n: nat): nat
    requires n > 0
  {
    (a + n - 1) / n
  }

  /** The counter after `q` quiet blocks: it runs down by `n` until it is spent. */
  function HoldLeft(length: nat, n: nat, q: nat): int {
    if q == 0 then length
    else if HoldLeft(length, n, q - 1) > 0 then HoldLeft(length, n, q - 1) - n
    else HoldLeft(length, n, q - 1)
  }

  lemma {:induction false} HoldSpent(length: nat, n: nat, q: nat)
    requires n > 0
    ensures HoldLeft(length, n, q) > 0 <==> q < CeilDiv(length, n)
    ensures q <= CeilDiv(length, n) ==> HoldLeft(length, n, q) == length - q * n
    decreases q
  {
    CeilAbove(length, n, q);
    if q > 0 {
      HoldSpent(length, n, q - 1);
      CeilAbove(length, n, q - 1);
      assert (q - 1) * n + n == q * n;
    }
  }

  lemma Times(a: nat, b: nat, n: nat)
    requires a <= b
    ensures a * n <= b * n
  {
    assert b * n == a * n + (b - a) * n;
  }

  lemma CeilAbove(a: nat, n: nat, q: nat)
    requires n > 0
    ensures q < CeilDiv(a, n) <==> q * n < a
  {
    var m := CeilDiv(a, n);
    var r := (a + n - 1) % n;
    assert a + n - 1 == n * m + r;
    if q < m {
      Times(q, m - 1, n);
      assert (m - 1) * n == m * n - n;
    } else {
      Times(m, q, n);
    }
  }

  predicate Sounding(b: Block) { b.enabled && b.level >= b.threshold }

  lemma {:induction false} HoldAfterQuiet(u: Tuning, s: Gate, loud: Block, rest: seq<Block>, n: nat)
    requires Sounding(loud) && forall b :: b in rest ==> b.n == n && !Sounding(b)
    ensures AfterAll(u, After(u, s, loud), rest).hold == HoldLeft(u.holdLength, n, QuietCount(rest))
    decreases |rest|
  {
    if rest != [] {
      assert rest[|rest| - 1] in rest;
      HoldAfterQuiet(u, s, loud, rest[..|rest| - 1], n);
    }
  }

  /** After the last loud block the gate stays open for exactly as many quiet blocks
      as it takes to cover the hold length; blocks with the gate switched off in
      between are open too and use nothing of it. Whichever block comes next, its
      gain falls if it is quiet and the hold has been covered, and rises otherwise. */
  lemma HoldsExactly(u: Tuning, s: Gate, loud: Block, rest: seq<Block>, b: Block, n: nat)
    requires u.Ok() && Unit(s.gain) && b.wired
    requires n > 0 && Sounding(loud) && forall x :: x in rest ==> x.n == n && !Sounding(x)
    ensures var t := AfterAll(u, After(u, s, loud), rest);
      After(u, t, b).gain ==
        if b.enabled && b.level < b.threshold && QuietCount(rest) >= CeilDiv(u.holdLength, n)
        then Fading(u, t.gain, b.n) else Rising(u, t.gain, b.n)
  {
    UnitKept(u, s, loud);
    UnitRuns(u, After(u, s, loud), rest);
    HoldAfterQuiet(u, s, loud, rest, n);
    HoldSpent(u.holdLength, n, QuietCount(rest));
    GainExactly(u, AfterAll(u, After(u, s, loud), rest), b);
  }

  // ----------------------------------------------------------- processor

  class NoiseGateProcessor {
    var gain: real
    var holdSamples: int
    const tuning: Tuning

    function State(): Gate
      reads this
    {
      Gate(gain, holdSamples)
    }

    constructor (tuning: Tuning)
      ensures State() == OPEN && this.tuning == tuning
    {
      gain, holdSamples := 1.0, 0;
      this.tuning := tuning;
    }

    /** The input that output channel `c` is made from. */
    static function Source(input: seq<seq<real>>, c: nat): seq<real>
      requires |input| > 0
    {
      if c < |input| then input[c] else input[0]
    }

    static ghost predicate Written(out: array<real>, x: seq<real>, coef: real, g: real, target: real, upto: nat)
      reads out
    {
      upto <= out.Length == |x| && forall i :: 0 <= i < upto ==>
        out[i] == Scaled(x[i], Envelope(coef, g, target, i + 1))
    }

    /** Every sample written is its input times the fading gain, or the rising one. */
    static ghost predicate Follows(out: array<real>, x: seq<real>, u: Tuning, g: real, shut: bool)
      reads out
    {
      out.Length == |x| && forall i :: 0 <= i < |x| ==>
        out[i] == Scaled(x[i], if shut then Fading(u, g, i + 1) else Rising(u, g, i + 1))
    }

    static lemma WrittenFollows(out: array<real>, x: seq<real>, u: Tuning, s: Gate, b: Block)
      requires Unit(s.gain) && |x| == b.n && Written(out, x, Coef(u, s, b), s.gain, Target(s, b), b.n)
      ensures Follows(out, x, u, s.gain, b.enabled && b.level < b.threshold && s.hold <= 0)
    {
      forall i | 0 <= i < |x|
        ensures out[i] == Scaled(x[i],
          if b.enabled && b.level < b.threshold && s.hold <= 0
          then Fading(u, s.gain, i + 1) else Rising(u, s.gain, i + 1))
      {
        Directions(u, s.gain, i + 1);
      }
    }

    /** Which way the gate is to move, and the hold counter. */
    method Decide(b: Block) returns (target: real)
      modifies this`holdSamples
      ensures target == Target(old(State()), b) && holdSamples == HoldAfter(tuning, old(State()), b)
    {
      if !b.enabled {
        target := 1.0;
      } else if b.level >= b.threshold {
        target := 1.0;
        holdSamples := tuning.holdLength;
      } else if holdSamples > 0 {
        target := 1.0;
        holdSamples := holdSamples - b.n;
      } else {
        target := 0.0;
      }
    }

    method Channel(x: seq<real>, out: array<real>, coef: real, g0: real, target: real) returns (g: real)
      requires |x| == out.Length
      modifies out
      ensures Written(out, x, coef, g0, target, |x|) && g == Envelope(coef, g0, target, |x|)
    {
      g := g0;
      for i := 0 to |x|
        invariant g == Envelope(coef, g0, target, i) && Written(out, x, coef, g0, target, i)
      {
        g := Smooth(coef, g, target);
        out[i] := Scaled(x[i], g);
      }
    }

    method Process(input: seq<seq<real>>, output: seq<array<real>>, b: Block)
      requires |input| > 0 && (forall c :: 0 <= c < |input| ==> |input[c]| == b.n)
      requires b.wired <==> |output| > 0
      requires forall c :: 0 <= c < |output| ==> output[c].Length == b.n
      requires forall c, d :: 0 <= c < d < |output| ==> output[c] != output[d]
      modifies this, set c | 0 <= c < |output| :: output[c]
      ensures State() == After(tuning, old(State()), b)
      ensures forall c :: 0 <= c < |output| ==>
        Written(output[c], Source(input, c), Coef(tuning, old(State()), b), old(gain), Target(old(State()), b), b.n)
      ensures Unit(old(gain)) ==> forall c :: 0 <= c < |output| ==>
        Follows(output[c], if c < |input| then input[c] else input[0], tuning, old(gain),
                b.enabled && b.level < b.threshold && old(holdSamples) <= 0)
    {
      ghost var before := State();
      var target := Decide(b);
      var coef := if target > gain then tuning.attack else tuning.release;
      var g := gain;
      for c := 0 to |output|
        invariant gain == before.gain && holdSamples == HoldAfter(tuning, before, b)
        invariant g == if c == 0 then gain else Envelope(coef, gain, target, b.n)
        invariant forall d :: 0 <= d < c ==> Written(output[d], Source(input, d), coef, gain, target, b.n)
      {
        g := Channel(Source(input, c), output[c], coef, gain, target);
      }
      gain := g;
      if Unit(before.gain) {
        forall c | 0 <= c < |output|
          ensures Follows(output[c], Source(input, c), tuning, before.gain,
                          b.enabled && b.level < b.threshold && before.hold <= 0)
        {
          WrittenFollows(output[c], Source(input, c), tuning, before, b);
        }
      }
    }
  }

  /** A sample that comes behind `m` samples of a shut gate is its input times
      `release` to its own place in the run. */
  lemma FadesThrough(u: Tuning, s: Gate, blocks: seq<Block>, out: array<real>, x: seq<real>, i: nat)
    requires u.Ok() && Unit(s.gain) && s.hold <= 0 && AllQuiet(blocks) && i < |x|
    requires NoiseGateProcessor.Follows(out, x, u, AfterAll(u, s, blocks).gain, true)
    ensures out[i] == Scaled(x[i], Fading(u, s.gain, Samples(blocks) + (i + 1)))
  {
    ShutFades(u, s, blocks);
    FadesOn(u, s.gain, Samples(blocks), i + 1);
  }

  /** What is written is never louder than what came in. */
  lemma NeverLouder(out: array<real>, x: seq<real>, coef: real, g: real, target: real, n: nat, i: nat)
    requires NoiseGateProcessor.Written(out, x, coef, g, target, n) && i < n
    requires 0.0 < coef < 1.0 && Unit(g) && Unit(target)
    ensures Abs(out[i]) <= Abs(x[i])
  {
    EnvelopeUnit(coef, g, target, i + 1);
    Quieter(x[i], Envelope(coef, g, target, i + 1));
  }
}
