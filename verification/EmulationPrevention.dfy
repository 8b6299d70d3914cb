/**
  Emulation prevention (section 7.4.1 of ITU-T H.264) as the frame cryptor
  applies it to the encrypted part of a frame: a 3 goes in front of every byte
  up to 3 that follows two zeros, and the receiver takes it out again.
*/
module EmulationPrevention {
  import opened Bytes

  /** What the sender emits for `x` when the last `zeros` bytes out were zero. */
  function Escape(x: seq<byte>, zeros: nat): seq<byte> {
    if x == [] then []
    else if x[0] <= 3 && zeros >= 2 then [3, x[0]] + Escape(x[1..], if x[0] == 0 then 1 else 0)
    else [x[0]] + Escape(x[1..], if x[0] == 0 then zeros + 1 else 0)
  }

  predicate MarkAt(e: seq<byte>, k: int) {
    0 <= k && k + 3 <= |e| && e[k] == 0 && e[k + 1] == 0 && e[k + 2] == 3
  }

  function Unescape(e: seq<byte>): seq<byte> {
    if e == [] then []
    else if MarkAt(e, 0) then [0, 0] + Unescape(e[3..])
    else [e[0]] + Unescape(e[1..])
  }

  /** The receiver's scan: a mark that is followed by at least one more byte. */
  ghost predicate NeedsUnescape(e: seq<byte>) {
    exists t :: t + 3 < |e| && MarkAt(e, t)
  }

  /** No start code, and no byte that H.264 forbids after two zeros but the mark. */
  ghost predicate Clean(e: seq<byte>) {
    forall k :: 0 <= k && k + 2 < |e| && e[k] == 0 && e[k + 1] == 0 ==> e[k + 2] >= 3
  }

  // ------------------------------------------------------------ the loops

  /** One round of the sender's loop. */
  lemma EscapeRound(e: seq<byte>, r: nat, n: nat, t: seq<byte>, all: seq<byte>)
    requires r < |e| && t + Escape(e[r..], n) == all
    ensures if e[r] <= 3 && n >= 2 then t + [3] + [e[r]] + Escape(e[r + 1..], if e[r] == 0 then 1 else 0) == all
            else t + [e[r]] + Escape(e[r + 1..], if e[r] == 0 then n + 1 else 0) == all
  {
    assert e[r..][1..] == e[r + 1..] && e[r..][0] == e[r];
    var z := Escape(e[r + 1..], if e[r] == 0 then (if e[r] <= 3 && n >= 2 then 1 else n + 1) else 0);
    if e[r] <= 3 && n >= 2 {
      assert t + ([3, e[r]] + z) == t + [3] + [e[r]] + z;
    } else {
      assert t + ([e[r]] + z) == t + [e[r]] + z;
    }
  }

  method EscapeBytes(e: seq<byte>) returns (t: seq<byte>)
    ensures t == Escape(e, 0)
  {
    t := [];
    var n, r := 0, 0;
    while r < |e|
      invariant 0 <= r <= |e| && 0 <= n
      invariant t + Escape(e[r..], n) == Escape(e, 0)
    {
      EscapeRound(e, r, n, t, Escape(e, 0));
      var i := e[r];
      if i <= 3 && n >= 2 {
        t := t + [3];
        n := 0;
      }
      t := t + [i];
      n := if i == 0 then n + 1 else 0;
      r := r + 1;
    }
  }

  lemma SkipMark(e: seq<byte>, r: nat, t: seq<byte>)
    requires r + 3 <= |e| && e[r] == 0 && e[r + 1] == 0 && e[r + 2] == 3
    ensures t + [e[r]] + [e[r + 1]] + Unescape(e[r + 3..]) == t + Unescape(e[r..])
  {
    assert MarkAt(e[r..], 0) && e[r..][3..] == e[r + 3..];
    assert Unescape(e[r..]) == [e[r], e[r + 1]] + Unescape(e[r + 3..]);
  }

  lemma CopyByte(e: seq<byte>, r: nat, t: seq<byte>)
    requires r < |e| && !MarkAt(e[r..], 0)
    ensures t + [e[r]] + Unescape(e[r + 1..]) == t + Unescape(e[r..])
  {
    assert e[r..][1..] == e[r + 1..];
  }

  method UnescapeBytes(e: seq<byte>) returns (t: seq<byte>)
    ensures t == Unescape(e)
  {
    t := [];
    var r := 0;
    while r < |e|
      invariant 0 <= r <= |e|
      invariant t + Unescape(e[r..]) == Unescape(e)
    {
      if |e| - r >= 3 && e[r] == 0 && e[r + 1] == 0 && e[r + 2] == 3 {
        SkipMark(e, r, t);
        t := t + [e[r]];
        t := t + [e[r + 1]];
        r := r + 3;
      } else {
        CopyByte(e, r, t);
        t := t + [e[r]];
        r := r + 1;
      }
    }
  }

  method ScanForMark(e: seq<byte>) returns (found: bool)
    ensures found <==> NeedsUnescape(e)
  {
    var t := 0;
    while t < |e| - 3
      invariant 0 <= t
      invariant forall k :: 0 <= k < t && k + 3 < |e| ==> !MarkAt(e, k)
    {
      if e[t] == 0 && e[t + 1] == 0 && e[t + 2] == 3 {
        assert MarkAt(e, t);
        return true;
      }
      t := t + 1;
    }
    return false;
  }

  // ------------------------------------------------------------ soundness

  function Zeros(n: nat): seq<byte> { seq(n, _ => 0) }

  lemma ZerosRead(n: nat)
    requires n <= 2
    ensures Unescape(Zeros(n)) == Zeros(n)
  {
    if n > 0 {
      ZerosRead(n - 1);
      assert Zeros(n)[1..] == Zeros(n - 1) && Zeros(n) == [0] + Zeros(n - 1);
    }
  }

  /** A mark after two zeros is dropped and the byte behind it is read as new. */
  lemma MarkRead(b: byte, tail: seq<byte>)
    ensures Unescape([0, 0, 3] + ([b] + tail)) == [0, 0] + Unescape([b] + tail)
    ensures b != 0 ==> Unescape([b] + tail) == [b] + Unescape(tail)
  {
    var e := [0, 0, 3] + ([b] + tail);
    assert MarkAt(e, 0) && e[3..] == [b] + tail;
    assert ([b] + tail)[1..] == tail;
  }

  /** Escaping in mid-stream: the zeros already out belong to what is read back. */
  lemma {:induction false} RoundTripFrom(x: seq<byte>, n: nat)
    requires n <= 2
    ensures Unescape(Zeros(n) + Escape(x, n)) == Zeros(n) + x
    decreases |x|
  {
    var e := Zeros(n) + Escape(x, n);
    if x == [] {
      ZerosRead(n);
      assert e == Zeros(n) == Zeros(n) + x;
    } else if x[0] == 0 && n < 2 {
      assert e == Zeros(n + 1) + Escape(x[1..], n + 1);
      RoundTripFrom(x[1..], n + 1);
      HeadMoves(Zeros(n), x);
      assert Zeros(n + 1) == Zeros(n) + [x[0]];
    } else if x[0] <= 3 && n == 2 {
      RoundTripMarked(x);
    } else {
      PassZeros(n, x[0], Escape(x[1..], 0));
      RoundTripFrom(x[1..], 0);
      assert Zeros(0) + Escape(x[1..], 0) == Escape(x[1..], 0) && Zeros(0) + x[1..] == x[1..];
      HeadMoves(Zeros(n), x);
    }
  }

  lemma HeadMoves(front: seq<byte>, x: seq<byte>)
    requires x != []
    ensures front + [x[0]] + x[1..] == front + x
  {
    assert [x[0]] + x[1..] == x;
  }

  lemma {:induction false} RoundTripMarked(x: seq<byte>)
    requires x != [] && x[0] <= 3
    ensures Unescape(Zeros(2) + Escape(x, 2)) == Zeros(2) + x
    decreases |x|, 0
  {
    var m := if x[0] == 0 then 1 else 0;
    var tail := Escape(x[1..], m);
    RoundTripFrom(x[1..], m);
    MarkRead(x[0], tail);
    Regrouped(x, tail);
    assert Unescape([x[0]] + tail) == x;
    MarkedForm(x[0], tail);
    assert Escape(x, 2) == [3, x[0]] + tail;
    assert Zeros(2) + x == [0, 0] + x;
  }

  lemma MarkedForm(b: byte, tail: seq<byte>)
    ensures Zeros(2) + ([3, b] + tail) == [0, 0, 3] + ([b] + tail)
  {
  }

  lemma Regrouped(x: seq<byte>, tail: seq<byte>)
    requires x != []
    ensures x[0] == 0 ==> [x[0]] + tail == Zeros(1) + tail && Zeros(1) + x[1..] == x
    ensures Zeros(0) + tail == tail && Zeros(0) + x[1..] == x[1..] && [x[0]] + x[1..] == x
  {
  }

  /** Zeros before a byte that is neither zero nor a mark are read as they are. */
  lemma PassZeros(n: nat, b: byte, tail: seq<byte>)
    requires n <= 2 && b != 0 && (n == 2 ==> b > 3)
    ensures Unescape(Zeros(n) + ([b] + tail)) == Zeros(n) + [b] + Unescape(tail)
    ensures NeedsUnescape(Zeros(n) + ([b] + tail)) <==> NeedsUnescape(tail)
  {
    var e := Zeros(n) + ([b] + tail);
    if n == 0 {
      assert e == [b] + tail && e[1..] == tail;
      assert Zeros(0) + [b] + Unescape(tail) == [b] + Unescape(tail);
    } else {
      PassZeros(n - 1, b, tail);
      assert e[1..] == Zeros(n - 1) + ([b] + tail);
      assert Zeros(n) == [0] + Zeros(n - 1);
      assert [0] + (Zeros(n - 1) + [b] + Unescape(tail)) == Zeros(n) + [b] + Unescape(tail);
    }
    NeedsTail(e);
  }

  lemma NeedsTail(e: seq<byte>)
    requires e != []
    ensures NeedsUnescape(e) <==> (|e| > 3 && MarkAt(e, 0)) || NeedsUnescape(e[1..])
  {
    if NeedsUnescape(e) && !MarkAt(e, 0) {
      var t :| t + 3 < |e| && MarkAt(e, t);
      assert MarkAt(e[1..], t - 1);
    }
    if NeedsUnescape(e[1..]) {
      var t :| t + 3 < |e[1..]| && MarkAt(e[1..], t);
      assert MarkAt(e, t + 1);
    }
  }

  lemma {:induction false} EscapeGrows(x: seq<byte>, n: nat)
    ensures |Escape(x, n)| >= |x|
    decreases |x|
  {
    if x != [] {
      EscapeGrows(x[1..], if x[0] == 0 then (if n >= 2 then 1 else n + 1) else 0);
    }
  }

  /** The scan says yes exactly when something was inserted. */
  lemma {:induction false} NeedsExactly(x: seq<byte>, n: nat)
    requires n <= 2
    ensures NeedsUnescape(Zeros(n) + Escape(x, n)) <==> Escape(x, n) != x
    decreases |x|
  {
    var e := Zeros(n) + Escape(x, n);
    if x == [] {
      assert |e| <= 2;
    } else if x[0] == 0 && n < 2 {
      NeedsExactly(x[1..], n + 1);
      assert e == Zeros(n + 1) + Escape(x[1..], n + 1);
      assert Escape(x, n) == [x[0]] + Escape(x[1..], n + 1);
      HeadsAgree(x, Escape(x[1..], n + 1));
    } else if x[0] <= 3 && n == 2 {
      EscapeGrows(x[1..], if x[0] == 0 then 1 else 0);
      assert MarkAt(e, 0) && 0 + 3 < |e|;
    } else {
      PassZeros(n, x[0], Escape(x[1..], 0));
      NeedsExactly(x[1..], 0);
      assert Zeros(0) + Escape(x[1..], 0) == Escape(x[1..], 0);
      HeadsAgree(x, Escape(x[1..], 0));
    }
  }

  lemma HeadsAgree(x: seq<byte>, tail: seq<byte>)
    requires x != []
    ensures [x[0]] + tail != x <==> tail != x[1..]
  {
    assert ([x[0]] + tail)[1..] == tail;
    assert x == [x[0]] + x[1..];
  }

  /** Two zeros are followed by a byte above 3, or by a mark and a byte up to 3. */
  predicate SpelledAt(t: seq<byte>, k: nat)
    requires k + 2 < |t|
  {
    t[k] == 0 && t[k + 1] == 0 ==> t[k + 2] >= 3 && (t[k + 2] == 3 ==> k + 3 < |t| && t[k + 3] <= 3)
  }

  /** What escaping can emit, from its start or from its middle. */
  ghost predicate Spellable(t: seq<byte>) { forall k: nat :: k + 2 < |t| ==> SpelledAt(t, k) }

  lemma SpellableTail(front: seq<byte>, b: byte, m: nat, tail: seq<byte>)
    requires m == (if b == 0 then 1 else 0) && Spellable(Zeros(m) + tail)
    requires if front == [0, 0, 3] then b <= 3
             else front == Zeros(|front|) && |front| <= 2 && b != 0 && (|front| == 2 ==> b > 3)
    ensures Spellable(front + ([b] + tail))
  {
    var e, f := front + ([b] + tail), Zeros(m) + tail;
    forall k: nat | k + 2 < |e| ensures SpelledAt(e, k) {
      var j := k - |front| - 1 + m;
      if j >= 0 {
        assert SpelledAt(f, j);
        assert f[j] == e[k] && f[j + 1] == e[k + 1] && f[j + 2] == e[k + 2];
        assert j + 3 < |f| ==> f[j + 3] == e[k + 3];
      }
    }
  }

  lemma {:induction false} SpellableFrom(x: seq<byte>, n: nat)
    requires n <= 2
    ensures Spellable(Zeros(n) + Escape(x, n))
    decreases |x|
  {
    var e := Zeros(n) + Escape(x, n);
    if x != [] {
      if x[0] == 0 && n < 2 {
        SpellableFrom(x[1..], n + 1);
        assert e == Zeros(n + 1) + Escape(x[1..], n + 1);
      } else if x[0] <= 3 && n == 2 {
        var m := if x[0] == 0 then 1 else 0;
        SpellableFrom(x[1..], m);
        SpellableTail([0, 0, 3], x[0], m, Escape(x[1..], m));
        assert e == [0, 0, 3] + ([x[0]] + Escape(x[1..], m));
      } else {
        SpellableFrom(x[1..], 0);
        assert Zeros(0) + Escape(x[1..], 0) == Escape(x[1..], 0);
        SpellableTail(Zeros(n), x[0], 0, Escape(x[1..], 0));
        assert e == Zeros(n) + ([x[0]] + Escape(x[1..], 0));
      }
    }
  }

  /** The end of what escaping can emit is such again. */
  lemma SpellableEnd(t: seq<byte>, i: nat)
    requires Spellable(t) && i <= |t|
    ensures Spellable(t[i..])
  {
    var u := t[i..];
    forall k: nat | k + 2 < |u| ensures SpelledAt(u, k) {
      assert SpelledAt(t, i + k);
      assert u[k] == t[i + k] && u[k + 1] == t[i + k + 1] && u[k + 2] == t[i + k + 2];
      assert k + 3 < |u| <==> i + k + 3 < |t|;
    }
  }

  /** What was put in for `t` to come out behind `n` zeros. */
  function Read(t: seq<byte>, n: nat): seq<byte> {
    if t == [] then []
    else if n >= 2 && t[0] == 3 && |t| > 1 then [t[1]] + Read(t[2..], if t[1] == 0 then 1 else 0)
    else [t[0]] + Read(t[1..], if t[0] == 0 then n + 1 else 0)
  }

  lemma ReadMark(t: seq<byte>)
    requires t != [] && t[0] == 3 && Spellable(Zeros(2) + t)
    ensures |t| > 1 && t[1] <= 3 && Spellable(Zeros(if t[1] == 0 then 1 else 0) + t[2..])
  {
    var u := Zeros(2) + t;
    assert SpelledAt(u, 0) && u[2] == t[0] && (|t| > 1 ==> u[3] == t[1]);
    SpellableEnd(u, if t[1] == 0 then 3 else 4);
    assert Zeros(0) + t[2..] == t[2..];
    assert u[if t[1] == 0 then 3 else 4..] == Zeros(if t[1] == 0 then 1 else 0) + t[2..];
  }

  lemma ReadPlain(t: seq<byte>, n: nat)
    requires t != [] && n <= 2 && (n == 2 ==> t[0] != 3) && Spellable(Zeros(n) + t)
    ensures n == 2 ==> t[0] > 3
    ensures if t[0] == 0 then n < 2 && Spellable(Zeros(n + 1) + t[1..]) else Spellable(Zeros(0) + t[1..])
  {
    var u := Zeros(n) + t;
    if n == 2 {
      assert SpelledAt(u, 0) && u[2] == t[0];
    }
    if t[0] == 0 {
      assert u == Zeros(n + 1) + t[1..];
    } else {
      SpellableEnd(u, n + 1);
      assert u[n + 1..] == t[1..] == Zeros(0) + t[1..];
    }
  }

  lemma {:induction false} ReadEscapes(t: seq<byte>, n: nat)
    requires n <= 2 && Spellable(Zeros(n) + t)
    ensures Escape(Read(t, n), n) == t
    decreases |t|
  {
    if t != [] {
      if n == 2 && t[0] == 3 {
        ReadMark(t);
        var m := if t[1] == 0 then 1 else 0;
        ReadEscapes(t[2..], m);
        assert ([t[1]] + Read(t[2..], m))[1..] == Read(t[2..], m);
        assert t == [3, t[1]] + t[2..];
      } else {
        ReadPlain(t, n);
        var m := if t[0] == 0 then n + 1 else 0;
        ReadEscapes(t[1..], m);
        assert ([t[0]] + Read(t[1..], m))[1..] == Read(t[1..], m);
        assert t == [t[0]] + t[1..];
      }
    }
  }

  /** The spellable strings are exactly those that escaping emits, and unescaping
      says from what. */
  lemma SpellableExactly(t: seq<byte>)
    ensures Spellable(t) <==> Escape(Unescape(t), 0) == t
  {
    assert Zeros(0) + t == t;
    if Spellable(t) {
      var x := Read(t, 0);
      ReadEscapes(t, 0);
      RoundTripFrom(x, 0);
      assert Zeros(0) + x == x;
    }
    if Escape(Unescape(t), 0) == t {
      SpellableFrom(Unescape(t), 0);
    }
  }

  /** Unescaping from a later byte on gives no more bytes. */
  lemma ShorterByOne(e: seq<byte>)
    requires e != []
    ensures |Unescape(e[1..])| <= |Unescape(e)|
  {
    if MarkAt(e, 0) {
      var d := e[1..];
      assert d[1..] == e[2..] && d[1..][1..] == e[3..];
      assert !MarkAt(d, 0) && !MarkAt(d[1..], 0);
      PassOne(d);
      PassOne(d[1..]);
    }
  }

  lemma {:induction false} UnescapeShrinks(e: seq<byte>)
    ensures |Unescape(e)| <= |e|
    decreases |e|
  {
    if MarkAt(e, 0) {
      UnescapeShrinks(e[3..]);
    } else if e != [] {
      UnescapeShrinks(e[1..]);
    }
  }

  lemma {:induction false} ShorterEnd(e: seq<byte>, i: nat)
    requires i <= |e|
    ensures |Unescape(e[i..])| <= |Unescape(e)|
    decreases i
  {
    if i > 0 {
      ShorterByOne(e);
      ShorterEnd(e[1..], i - 1);
      assert e[1..][i - 1..] == e[i..];
    } else {
      assert e[0..] == e;
    }
  }

  lemma SpellableClean(t: seq<byte>)
    requires Spellable(t)
    ensures Clean(t)
  {
    forall k | 0 <= k && k + 2 < |t| && t[k] == 0 && t[k + 1] == 0 ensures t[k + 2] >= 3 {
      assert SpelledAt(t, k);
    }
  }

  /** For every byte string: what arrives is what was sent, carries no start code,
      ends in the same byte, and is unescaped exactly when it was changed. */
  lemma EscapeSound(x: seq<byte>)
    ensures Unescape(Escape(x, 0)) == x
    ensures Clean(Escape(x, 0))
    ensures NeedsUnescape(Escape(x, 0)) <==> Escape(x, 0) != x
    ensures x != [] ==> Escape(x, 0) != [] && Escape(x, 0)[|Escape(x, 0)| - 1] == x[|x| - 1]
  {
    var e := Escape(x, 0);
    assert Zeros(0) + e == e && Zeros(0) + x == x;
    RoundTripFrom(x, 0);
    SpellableFrom(x, 0);
    SpellableClean(e);
    NeedsExactly(x, 0);
    LastKept(x, 0);
  }

  lemma {:induction false} LastKept(x: seq<byte>, n: nat)
    ensures x != [] ==> Escape(x, n) != [] && Escape(x, n)[|Escape(x, n)| - 1] == x[|x| - 1]
    decreases |x|
  {
    if |x| > 1 {
      LastKept(x[1..], if x[0] == 0 then (if n >= 2 then 1 else n + 1) else 0);
    }
  }

  /** A last byte behind a non-zero one is sent as it is, and so is that one. */
  lemma {:induction false} LastTwoKept(x: seq<byte>, n: nat)
    requires |x| >= 2 && x[|x| - 2] != 0
    ensures var e := Escape(x, n); |e| >= 2 && e[|e| - 2] == x[|x| - 2] && e[|e| - 1] == x[|x| - 1]
    decreases |x|
  {
    if |x| == 2 {
      assert x[1..] == [x[1]] && x[1..][1..] == [];
      assert Escape(x[1..], 0) == [x[1]];
    } else {
      LastTwoKept(x[1..], if x[0] == 0 then (if x[0] <= 3 && n >= 2 then 1 else n + 1) else 0);
    }
  }

  /** The last byte but one is the same, or a mark. */
  lemma {:induction false} PenultimateKept(x: seq<byte>, n: nat)
    requires |x| >= 2
    ensures var e := Escape(x, n); |e| >= 2 && (e[|e| - 2] == 3 || e[|e| - 2] == x[|x| - 2])
    decreases |x|
  {
    var m := if x[0] == 0 then (if x[0] <= 3 && n >= 2 then 1 else n + 1) else 0;
    if |x| == 2 {
      assert x[1..] == [x[1]] && x[1..][1..] == [];
      assert Escape([], if x[1] == 0 then 1 else 0) == [] == Escape([], if x[1] == 0 then m + 1 else 0);
      assert Escape(x[1..], m) == if x[1] <= 3 && m >= 2 then [3, x[1]] else [x[1]];
    } else {
      PenultimateKept(x[1..], m);
    }
  }

  /** What comes out behind a 12 went in behind one. */
  lemma EndRead(x: seq<byte>)
    ensures var e := Escape(x, 0); |e| >= |x| && (x == [] ==> e == [])
    ensures var e := Escape(x, 0); x != [] ==> e[|e| - 1] == x[|x| - 1]
    ensures var e := Escape(x, 0); |x| >= 2 && e[|e| - 2] == 12 ==> x[|x| - 2] == 12
  {
    EscapeGrows(x, 0);
    LastKept(x, 0);
    if |x| >= 2 {
      PenultimateKept(x, 0);
    }
  }

  function Twelves(k: nat): seq<byte> { seq(k, _ => 12) }

  /** Bytes of 12 in front are sent as they are, and nothing else changes. */
  lemma {:induction false} Padded(k: nat, x: seq<byte>)
    ensures Escape(Twelves(k) + x, 0) == Twelves(k) + Escape(x, 0)
    decreases k
  {
    var s := Twelves(k) + x;
    if k == 0 {
      assert s == x;
    } else {
      var pad := Twelves(k - 1);
      assert s[0] == 12 && s[1..] == pad + x;
      Padded(k - 1, x);
      assert Twelves(k) == [12] + pad;
    }
  }

  lemma MarkReadsZero(e: seq<byte>)
    ensures MarkAt(e, 0) ==> Unescape(e) != [] && Unescape(e)[0] == 0
  {
    if MarkAt(e, 0) {
      assert Unescape(e) == [0, 0] + Unescape(e[3..]);
    }
  }

  /** Where non-zero bytes come out in front, they are what went in. */
  lemma {:induction false} UnescapeFront(e: seq<byte>, m: nat)
    requires m <= |Unescape(e)| && forall k :: 0 <= k < m ==> Unescape(e)[k] != 0
    ensures m <= |e| && forall k :: 0 <= k < m ==> e[k] == Unescape(e)[k]
    decreases m
  {
    if m > 0 {
      MarkReadsZero(e);
      assert e != [] && Unescape(e)[0] != 0;
      var t := Unescape(e[1..]);
      assert Unescape(e) == [e[0]] + t;
      forall k | 0 <= k < m - 1 ensures t[k] != 0 {
        assert t[k] == Unescape(e)[k + 1];
      }
      UnescapeFront(e[1..], m - 1);
      forall k | 0 <= k < m ensures e[k] == Unescape(e)[k] {
        if k > 0 {
          assert e[1..][k - 1] == t[k - 1];
        }
      }
    }
  }

  /** A byte that begins no mark is passed on. */
  lemma PassOne(e: seq<byte>)
    requires e != [] && !MarkAt(e, 0)
    ensures Unescape(e) == [e[0]] + Unescape(e[1..])
  {
  }

  /** The receiver's two loops undo the sender's one. */
  method ReadBack(e: seq<byte>) returns (x: seq<byte>)
    ensures forall y :: e == Escape(y, 0) ==> x == y
  {
    var needs := ScanForMark(e);
    if needs {
      x := UnescapeBytes(e);
    } else {
      x := e;
    }
    forall y | e == Escape(y, 0) ensures x == y {
      EscapeSound(y);
    }
  }
}
