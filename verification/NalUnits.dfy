/**
  Finding the first slice NAL unit of a frame. Sender and receiver both run this
  to decide how many leading bytes stay in the clear; the receiver runs it on the
  frame whose remainder the sender has already encrypted.
*/
module NalUnits {
  import opened Wrappers
  import opened Bytes

  datatype Codec = H264 | H265

  predicate IsH264Slice(b: byte) { b % 32 == 1 || b % 32 == 5 }

  predicate IsH265Slice(b: byte) {
    var t := b / 2 % 64;
    t <= 9 || 16 <= t <= 21
  }

  predicate IsSlice(c: Codec, b: byte) {
    if c == H265 then IsH265Slice(b) else IsH264Slice(b)
  }

  // ------------------------------------------------- start codes, as a list

  predicate Three(e: seq<byte>, r: nat) {
    r + 3 <= |e| && e[r] == 0 && e[r + 1] == 0 && e[r + 2] == 1
  }

  predicate Four(e: seq<byte>, r: nat) {
    r + 4 <= |e| && e[r] == 0 && e[r + 1] == 0 && e[r + 2] == 0 && e[r + 3] == 1
  }

  /** The search stops here; it looks no further than the fourth byte from the end. */
  predicate Found(e: seq<byte>, r: nat) {
    (r < |e| - 4 && Four(e, r)) || Three(e, r)
  }

  /** The next start code from `r` on, or the end of the frame. */
  function Next(e: seq<byte>, r: nat): (s: nat)
    ensures s < |e| - 3 ==> r <= s && Found(e, s)
    ensures s >= |e| - 3 ==> s == |e|
    ensures forall p :: r <= p < s && p < |e| - 3 ==> !Found(e, p)
    decreases |e| - r
  {
    if r >= |e| - 3 then |e| else if Found(e, r) then r else Next(e, r + 1)
  }

  function CodeLength(e: seq<byte>, r: nat): nat {
    if r < |e| - 3 && Four(e, r) then 4 else 3
  }

  /** Where NAL units begin, given that one may begin at `r`. */
  function Starts(e: seq<byte>, r: nat): seq<nat>
    decreases |e| - r
  {
    if r >= |e| - 3 then []
    else var s := Next(e, r); [r] + Starts(e, s + CodeLength(e, s))
  }

  ghost predicate AllZero(e: seq<byte>, hi: nat) {
    forall k :: 0 <= k < hi && k < |e| ==> e[k] == 0
  }

  /** None is the scanner's TypeError about leading data. */
  ghost function Units(e: seq<byte>): Option<seq<nat>> {
    if |e| <= 3 then Some([])
    else
      var s := Next(e, 0);
      if AllZero(e, s) then Some(Starts(e, s + CodeLength(e, s))) else None
  }

  predicate Matches(b: byte, want: Option<Codec>) {
    match want
    case None => IsH264Slice(b) || IsH265Slice(b)
    case Some(c) => IsSlice(c, b)
  }

  /** The first unit of a wanted kind. */
  function First(e: seq<byte>, starts: seq<nat>, want: Option<Codec>): (k: Option<nat>)
    ensures k.Some? ==> k.value in starts && k.value < |e| && Matches(e[k.value], want)
    decreases |starts|
  {
    if starts == [] then None
    else if starts[0] < |e| && Matches(e[starts[0]], want) then Some(starts[0])
    else First(e, starts[1..], want)
  }

  lemma StartsInside(e: seq<byte>, r: nat)
    ensures forall i :: 0 <= i < |Starts(e, r)| ==> r <= Starts(e, r)[i] < |e| - 3
    decreases |e| - r
  {
    if r < |e| - 3 {
      var s := Next(e, r);
      StartsInside(e, s + CodeLength(e, s));
    }
  }

  /** The clear header length, or None when the frame falls back to fixed lengths. */
  ghost function ClearBytes(e: seq<byte>, want: Option<Codec>): (n: Option<nat>)
    ensures n.Some? ==> 5 <= n.value <= |e| - 2 && Matches(e[n.value - 2], want)
  {
    var u := Units(e);
    if u.None? then None
    else
      UnitsInside(e);
      var k := First(e, u.value, want);
      if k.None? then None else Some(k.value + 2)
  }

  lemma UnitsInside(e: seq<byte>)
    ensures Units(e).Some? ==> forall i :: 0 <= i < |Units(e).value| ==> 3 <= Units(e).value[i] < |e| - 3
  {
    if |e| > 3 {
      var s := Next(e, 0);
      StartsInside(e, s + CodeLength(e, s));
    }
  }

  // -------------------------------------------------------- the scanner

  /** Taking the unit at `r` off the list of those to come. */
  lemma NextStart(e: seq<byte>, r: nat, list: seq<nat>)
    requires r < |e| - 3
    ensures var s := Next(e, r); list + Starts(e, r) == list + [r] + Starts(e, s + CodeLength(e, s))
  {
    var s := Next(e, r);
    assert list + ([r] + Starts(e, s + CodeLength(e, s))) == list + [r] + Starts(e, s + CodeLength(e, s));
  }

  /** The look-ahead: the next start code, or the end of the frame. */
  method SkipToCode(e: seq<byte>, r0: nat) returns (r: nat)
    requires r0 < |e| - 3
    ensures r == Next(e, r0)
  {
    r := r0;
    while r < |e| - 3 && !((r < |e| - 4 && Four(e, r)) || Three(e, r))
      invariant r0 <= r <= |e| - 3 && Next(e, r) == Next(e, r0)
    {
      r := r + 1;
    }
    if r >= |e| - 3 {
      r := |e|;
    }
  }

  /** The zeros before a start code are trailing zeros of the unit from `n` on. */
  method TrimZeros(e: seq<byte>, n: nat, r: nat) returns (a: nat)
    requires n <= r <= |e|
    ensures n <= a <= r && (forall k :: a <= k < r ==> e[k] == 0) && (a > n ==> e[a - 1] != 0)
  {
    a := r;
    while a > n && e[a - 1] == 0
      invariant n <= a <= r && forall k :: a <= k < r ==> e[k] == 0
    {
      a := a - 1;
    }
  }

  method ScanUnits(e: seq<byte>) returns (t: Option<seq<nat>>)
    ensures t == Units(e)
  {
    var list: seq<nat> := [];
    var n, r: nat := 0, 0;
    while r < |e| - 3
      invariant n == r && (n == 0 ==> list == []) && (n == 0 || n >= 3)
      invariant n == 0 || (Units(e).Some? && list + Starts(e, r) == Units(e).value)
      decreases |e| - r
    {
      ghost var before, r0 := list, r;
      r := SkipToCode(e, r);
      var a := TrimZeros(e, n, r);
      if n == 0 {
        if a != n {
          return None;
        }
      } else {
        list := list + [n];
      }
      var o := 3;
      if r < |e| - 3 && Four(e, r) {
        o := 4;
      }
      r := r + o;
      if n != 0 {
        NextStart(e, r0, before);
      }
      n := r;
    }
    assert n != 0 ==> list + Starts(e, r) == list;
    return Some(list);
  }

  /** The scanner's whole answer: which codec it settled on and how much stays clear. */
  method FindClearBytes(e: seq<byte>, want: Option<Codec>) returns (n: Option<nat>)
    ensures n == ClearBytes(e, want)
  {
    UnitsInside(e);
    var units := ScanUnits(e);
    if units.None? {
      return None;
    }
    var codec := want;
    if codec.None? {
      codec := DetectCodec(e, units.value);
      if codec.None? {
        return None;
      }
    }
    n := FindSlice(e, units.value, codec.value);
  }

  method FindSlice(e: seq<byte>, units: seq<nat>, codec: Codec) returns (n: Option<nat>)
    requires forall i :: 0 <= i < |units| ==> units[i] < |e|
    ensures n == match First(e, units, Some(codec)) case None => None case Some(k) => Some(k + 2)
  {
    for i := 0 to |units|
      invariant First(e, units, Some(codec)) == First(e, units[i..], Some(codec))
    {
      assert units[i..][1..] == units[i + 1..];
      if codec == H265 {
        if IsH265Slice(e[units[i]]) {
          return Some(units[i] + 2);
        }
      } else if IsH264Slice(e[units[i]]) {
        return Some(units[i] + 2);
      }
    }
    return None;
  }

  method DetectCodec(e: seq<byte>, units: seq<nat>) returns (c: Option<Codec>)
    requires forall i :: 0 <= i < |units| ==> units[i] < |e|
    ensures c.None? ==> First(e, units, None) == None
    ensures c.Some? ==> First(e, units, c) == First(e, units, None) && First(e, units, None).Some?
  {
    ghost var none: Option<Codec> := None;
    for i := 0 to |units|
      invariant First(e, units, none) == First(e, units[i..], none)
      invariant forall d :: First(e, units, Some(d)) == First(e, units[i..], Some(d))
    {
      assert units[i..][1..] == units[i + 1..];
      if IsH264Slice(e[units[i]]) {
        return Some(H264);
      }
      if IsH265Slice(e[units[i]]) {
        return Some(H265);
      }
    }
    return None;
  }

  // ------------------------------------------- the two ends agree

  /** A start code found well before `hi` is found in any longer frame that
      agrees up to `hi`. */
  lemma NextAgrees(e: seq<byte>, f: seq<byte>, r: nat, hi: nat)
    requires |e| <= |f| && hi + 3 < |e| && e[..hi + 1] == f[..hi + 1]
    requires Next(e, r) + CodeLength(e, Next(e, r)) <= hi
    ensures Next(f, r) == Next(e, r) && CodeLength(f, Next(e, r)) == CodeLength(e, Next(e, r))
    decreases |e| - r
  {
    SameBytes(e, f, hi);
    if !Found(e, r) {
      assert !Found(f, r);
      NextAgrees(e, f, r + 1, hi);
    }
  }

  lemma SameBytes(e: seq<byte>, f: seq<byte>, hi: nat)
    requires |e| <= |f| && hi < |e| && e[..hi + 1] == f[..hi + 1]
    ensures forall k :: 0 <= k <= hi ==> e[k] == f[k]
  {
    forall k | 0 <= k <= hi ensures e[k] == f[k] {
      assert e[..hi + 1][k] == f[..hi + 1][k];
    }
  }

  /** Where the unit after the one at `r` begins. */
  function After(e: seq<byte>, r: nat): (r1: nat)
    requires r < |e|
    ensures r1 > r
  {
    Next(e, r) + CodeLength(e, Next(e, r))
  }

  /** A unit that is not wanted is passed over. */
  lemma PassedOver(e: seq<byte>, r: nat, want: Option<Codec>)
    requires r < |e| - 3 && !Matches(e[r], want)
    ensures First(e, Starts(e, r), want) == First(e, Starts(e, After(e, r)), want)
  {
    assert Starts(e, r)[1..] == Starts(e, After(e, r));
  }

  /** The found unit is one of the starts, and the first if the first is wanted. */
  lemma FoundWhere(e: seq<byte>, r: nat, want: Option<Codec>, hi: nat)
    requires First(e, Starts(e, r), want) == Some(hi)
    ensures r <= hi < |e| - 3 && Matches(e[hi], want) && (Matches(e[r], want) ==> r == hi)
  {
    StartsInside(e, r);
  }

  lemma FoundHere(e: seq<byte>, r: nat, want: Option<Codec>)
    requires r < |e| - 3 && Matches(e[r], want)
    ensures First(e, Starts(e, r), want) == Some(r)
  {
  }

  /** A unit before the wanted one is passed over, and the next begins no later. */
  lemma NextUnit(e: seq<byte>, r: nat, want: Option<Codec>, hi: nat)
    requires r != hi && First(e, Starts(e, r), want) == Some(hi)
    ensures r < hi < |e| - 3 && !Matches(e[r], want) && After(e, r) <= hi
    ensures First(e, Starts(e, After(e, r)), want) == Some(hi)
  {
    FoundWhere(e, r, want, hi);
    PassedOver(e, r, want);
    FoundWhere(e, After(e, r), want, hi);
  }

  lemma AfterAgrees(e: seq<byte>, f: seq<byte>, r: nat, hi: nat)
    requires |e| <= |f| && hi + 3 < |e| && e[..hi + 1] == f[..hi + 1] && r < |e| && After(e, r) <= hi
    ensures After(f, r) == After(e, r)
  {
    NextAgrees(e, f, r, hi);
  }

  lemma {:induction false} FirstAgrees(e: seq<byte>, f: seq<byte>, r: nat, want: Option<Codec>, hi: nat)
    requires |e| <= |f| && hi + 3 < |e| && e[..hi + 1] == f[..hi + 1]
    requires First(e, Starts(e, r), want) == Some(hi)
    ensures First(f, Starts(f, r), want) == Some(hi)
    decreases |e| - r
  {
    if r == hi {
      FoundWhere(e, r, want, hi);
      assert e[r] == e[..hi + 1][r] == f[r];
      FoundHere(f, hi, want);
    } else {
      NextUnit(e, r, want, hi);
      FirstAgrees(e, f, After(e, r), want, hi);
      AfterAgrees(e, f, r, hi);
      assert e[r] == e[..hi + 1][r] == f[r];
      PassedOver(f, r, want);
    }
  }

  /** The unit found at `hi`, seen from the first start code. */
  lemma FirstUnit(e: seq<byte>, want: Option<Codec>, hi: nat)
    requires ClearBytes(e, want) == Some(hi + 2)
    ensures var s := Next(e, 0); var r := s + CodeLength(e, s);
      hi + 3 < |e| && AllZero(e, s) && r <= hi && First(e, Starts(e, r), want) == Some(hi)
  {
    var s := Next(e, 0);
    StartsInside(e, s + CodeLength(e, s));
  }

  lemma ShorterPrefix(e: seq<byte>, f: seq<byte>, hi: nat)
    requires hi + 2 <= |e| && hi + 2 <= |f| && e[..hi + 2] == f[..hi + 2]
    ensures e[..hi + 1] == f[..hi + 1]
  {
    assert e[..hi + 1] == e[..hi + 2][..hi + 1] && f[..hi + 1] == f[..hi + 2][..hi + 1];
  }

  lemma UnitAt(f: seq<byte>, want: Option<Codec>, hi: nat)
    requires |f| > 3 && AllZero(f, Next(f, 0))
    requires First(f, Starts(f, Next(f, 0) + CodeLength(f, Next(f, 0))), want) == Some(hi)
    ensures ClearBytes(f, want) == Some(hi + 2)
  {
  }

  lemma LeadInAgrees(e: seq<byte>, f: seq<byte>, hi: nat)
    requires |e| <= |f| && hi + 3 < |e| && e[..hi + 1] == f[..hi + 1]
    requires AllZero(e, Next(e, 0)) && Next(e, 0) + CodeLength(e, Next(e, 0)) <= hi
    ensures Next(f, 0) == Next(e, 0) && CodeLength(f, Next(e, 0)) == CodeLength(e, Next(e, 0)) && AllZero(f, Next(f, 0))
  {
    NextAgrees(e, f, 0, hi);
    SameBytes(e, f, hi);
  }

  /** Whatever follows the clear header, and however much longer it has become,
      a scan of the new frame finds the same header. */
  lemma HeaderAgrees(e: seq<byte>, f: seq<byte>, want: Option<Codec>)
    requires ClearBytes(e, want).Some? && |e| <= |f|
    requires e[..ClearBytes(e, want).value] == f[..ClearBytes(e, want).value]
    ensures ClearBytes(f, want) == ClearBytes(e, want)
  {
    var hi := ClearBytes(e, want).value - 2;
    FirstUnit(e, want, hi);
    ShorterPrefix(e, f, hi);
    LeadInAgrees(e, f, hi);
    FirstAgrees(e, f, Next(e, 0) + CodeLength(e, Next(e, 0)), want, hi);
    UnitAt(f, want, hi);
  }

  // -------------------------------------- what a clear header decides alone

  /** A non-zero byte that can end no start code, with only zeros before it: the
      scanner refuses the lead-in, whatever follows. */
  lemma LeadInRefused(e: seq<byte>, p: nat, want: Option<Codec>)
    requires p < |e| && e[p] != 0 && AllZero(e, p) && !(p >= 2 && e[p] == 1)
    ensures ClearBytes(e, want) == None
  {
    if |e| > 3 {
      var s := Next(e, 0);
      assert !(s <= p && Found(e, s));
      assert !AllZero(e, s);
    }
  }

  /** A search that starts before a start code at `b` ends before it or with it. */
  lemma NextBefore(e: seq<byte>, r: nat, b: nat)
    requires r <= b && Three(e, b) && b + 6 < |e|
    ensures var s := Next(e, r); s <= b && (After(e, r) <= b || After(e, r) == b + 3)
  {
    var s := Next(e, r);
    assert Found(e, b);
    assert s <= b && Found(e, s);
    if Four(e, s) {
      assert s + 3 != b && s + 3 != b + 1;
    } else {
      assert Three(e, s) && s + 2 != b && s + 2 != b + 1;
    }
  }

  /** The first wanted unit comes no later than one that the start code announces. */
  lemma {:induction false} FirstReached(e: seq<byte>, r: nat, want: Option<Codec>, b: nat)
    requires Three(e, b) && b + 6 < |e| && Matches(e[b + 3], want) && (r <= b || r == b + 3)
    ensures var k := First(e, Starts(e, r), want); k.Some? && k.value <= b + 3
    decreases |e| - r
  {
    if Matches(e[r], want) {
      FoundHere(e, r, want);
    } else {
      NextBefore(e, r, b);
      PassedOver(e, r, want);
      FirstReached(e, After(e, r), want, b);
    }
  }

  /** A header of zeros, or one whose first non-zero byte ends a start code, lets the
      scanner go on into what follows, and find a unit there. */
  lemma ScannedPast(e: seq<byte>, b: nat, want: Option<Codec>)
    requires Three(e, b) && b + 6 < |e| && Matches(e[b + 3], want)
    requires AllZero(e, b) || exists p :: 2 <= p < b && e[p] == 1 && AllZero(e, p)
    ensures ClearBytes(e, want).Some? && ClearBytes(e, want).value <= b + 5
  {
    var s := Next(e, 0);
    NextBefore(e, 0, b);
    assert AllZero(e, s) by {
      if !AllZero(e, b) {
        var p :| 2 <= p < b && e[p] == 1 && AllZero(e, p);
        assert Found(e, p - 2);
      }
    }
    FirstReached(e, s + CodeLength(e, s), want, b);
    UnitAt(e, want, First(e, Starts(e, s + CodeLength(e, s)), want).value);
  }
}
