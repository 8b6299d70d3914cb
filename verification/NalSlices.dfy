/**
  What the scanner of `NalUnits` finds, said of the frame alone: the first byte of a
  slice unit behind a start code, unless something other than zeros leads in.
*/
module NalSlices {
  import opened Wrappers
  import opened Bytes
  import opened NalUnits

  /** A start code 00 00 01 ends right before `p` and lies at `r` or later. */
  predicate Announced(e: seq<byte>, r: nat, p: nat) {
    r + 3 <= p <= |e| && e[p - 3] == 0 && e[p - 2] == 0 && e[p - 1] == 1
  }

  /** The first byte that is not zero is the 1 of a start code. */
  ghost predicate LeadIn(e: seq<byte>) {
    exists z :: 2 <= z < |e| && e[z] == 1 && forall k :: 0 <= k < z ==> e[k] == 0
  }

  lemma AnnouncedFound(e: seq<byte>, r: nat, p: nat)
    requires p < |e| - 3 && Announced(e, r, p)
    ensures Next(e, r) <= p - 3 && Found(e, Next(e, r))
  {
    assert Three(e, p - 3);
    assert Found(e, p - 3);
  }

  /** Start codes do not overlap: behind `r` a unit is announced exactly where the next
      one begins, or behind that. */
  lemma NextAnnounced(e: seq<byte>, r: nat, p: nat)
    requires r < |e| && p < |e| - 3
    ensures Announced(e, r, p) <==> p == After(e, r) || Announced(e, After(e, r), p)
  {
    var s := Next(e, r);
    if Announced(e, r, p) {
      AnnouncedFound(e, r, p);
      if Four(e, s) {
        assert p - 3 != s && p - 3 != s + 2 && p - 3 != s + 3;
      } else {
        assert Three(e, s) && p - 3 != s + 1 && p - 3 != s + 2;
      }
    }
  }

  /** Of the unit at `r` and those announced behind it, the first that is wanted. */
  ghost predicate FirstWanted(e: seq<byte>, r: nat, want: Option<Codec>, hi: nat) {
    && r <= hi < |e| - 3 && (hi == r || Announced(e, r, hi)) && Matches(e[hi], want)
    && forall p :: r <= p < hi && (p == r || Announced(e, r, p)) ==> !Matches(e[p], want)
  }

  lemma Later(e: seq<byte>, r: nat, want: Option<Codec>, hi: nat)
    requires r < |e| - 3 && !Matches(e[r], want)
    ensures FirstWanted(e, r, want, hi) <==> FirstWanted(e, After(e, r), want, hi)
  {
    forall p | 0 <= p < |e| - 3 ensures Announced(e, r, p) <==> p == After(e, r) || Announced(e, After(e, r), p) {
      NextAnnounced(e, r, p);
    }
  }

  lemma {:induction false} FirstExactly(e: seq<byte>, r: nat, want: Option<Codec>, hi: nat)
    ensures First(e, Starts(e, r), want) == Some(hi) <==> FirstWanted(e, r, want, hi)
    decreases |e| - r
  {
    if r < |e| - 3 {
      if Matches(e[r], want) {
        FoundHere(e, r, want);
      } else {
        PassedOver(e, r, want);
        FirstExactly(e, After(e, r), want, hi);
        Later(e, r, want, hi);
      }
    }
  }

  lemma LeadInExactly(e: seq<byte>, p: nat)
    requires p < |e| - 3 && Announced(e, 0, p)
    ensures AllZero(e, Next(e, 0)) <==> LeadIn(e)
  {
    AnnouncedFound(e, 0, p);
    var s := Next(e, 0);
    if AllZero(e, s) {
      var z := s + CodeLength(e, s) - 1;
      assert e[z] == 1 && forall k :: 0 <= k < z ==> e[k] == 0;
    }
    if LeadIn(e) {
      var z :| 2 <= z < |e| && e[z] == 1 && forall k :: 0 <= k < z ==> e[k] == 0;
      assert z <= p - 1;
      assert Three(e, z - 2) && Found(e, z - 2);
    }
  }

  /** A wanted unit at `hi`, behind a start code, and none before it. */
  ghost predicate Foremost(e: seq<byte>, want: Option<Codec>, hi: nat) {
    && hi < |e| - 3 && Announced(e, 0, hi) && Matches(e[hi], want)
    && forall p :: 3 <= p < hi && Announced(e, 0, p) ==> !Matches(e[p], want)
  }

  lemma ForemostFound(e: seq<byte>, want: Option<Codec>, hi: nat)
    requires |e| > 3
    ensures First(e, Starts(e, After(e, 0)), want) == Some(hi) <==> Foremost(e, want, hi)
  {
    FirstExactly(e, After(e, 0), want, hi);
    forall p | 0 <= p < |e| - 3 ensures Announced(e, 0, p) <==> p == After(e, 0) || Announced(e, After(e, 0), p) {
      NextAnnounced(e, 0, p);
    }
  }

  lemma ClearOfUnits(e: seq<byte>, want: Option<Codec>, hi: nat)
    ensures ClearBytes(e, want) == Some(hi + 2) <==>
      |e| > 3 && AllZero(e, Next(e, 0)) && First(e, Starts(e, After(e, 0)), want) == Some(hi)
  {
  }

  /** The clear header of a frame is `n` bytes long if and only if: only zeros lead in to
      the first start code, the byte two before its end begins a slice unit of the wanted
      codec right behind a start code, at least three bytes of the frame follow that byte,
      and no earlier start code announces such a unit. */
  lemma ClearExactly(e: seq<byte>, want: Option<Codec>, n: nat)
    ensures ClearBytes(e, want) == Some(n) <==>
      && 5 <= n < |e| - 1 && LeadIn(e) && Announced(e, 0, n - 2) && Matches(e[n - 2], want)
      && forall p :: 3 <= p < n - 2 && Announced(e, 0, p) ==> !Matches(e[p], want)
  {
    if n >= 2 {
      var hi := n - 2;
      ClearOfUnits(e, want, hi);
      if |e| > 3 {
        ForemostFound(e, want, hi);
      }
      if hi < |e| - 3 && Announced(e, 0, hi) {
        LeadInExactly(e, hi);
      }
    }
  }

  /** The types of section 7.3.1.1 of ITU-T H.264 and section 7.3.1.2 of ITU-T H.265:
      coded slices of non-IDR and IDR pictures; all slice segment types in use. */
  lemma SliceTypes(high: nat, kind: nat, low: nat)
    ensures high < 8 && kind < 32 ==> (IsH264Slice(high * 32 + kind) <==> kind == 1 || kind == 5)
    ensures high < 2 && kind < 64 && low < 2 ==>
      (IsH265Slice(high * 128 + kind * 2 + low) <==> kind <= 9 || 16 <= kind <= 21)
  {
    if high < 8 && kind < 32 {
      assert (high * 32 + kind) % 32 == kind;
    }
    if high < 2 && kind < 64 && low < 2 {
      assert (high * 128 + kind * 2 + low) / 2 == high * 64 + kind;
      assert (high * 64 + kind) % 64 == kind;
    }
  }
}
