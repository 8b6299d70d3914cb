/**
  The 12-byte initialisation vector of a frame: stream, timestamp, and timestamp
  less a per-stream counter that cycles through 65535 values, each 32 bits wide.
*/
module FrameIv {
  import opened Bytes

  const CYCLE := 65535

  /** `DataView.setUint32` of any integer. */
  function U32(n: int): seq<byte> { BigEndian(n % TWO32, 4) }

  function Iv(ssrc: int, timestamp: int, count: nat): seq<byte> {
    U32(ssrc) + U32(timestamp) + U32(timestamp - count % CYCLE)
  }

  lemma U32Injective(m: int, n: int)
    ensures U32(m) == U32(n) <==> m % TWO32 == n % TWO32
  {
    Widths();
    BigEndianRoundTrip(m % TWO32, 4);
    BigEndianRoundTrip(n % TWO32, 4);
  }

  /** The three words, read back big-endian: stream, timestamp, and the timestamp less
      the counter's place in its cycle. */
  lemma IvReads(ssrc: int, timestamp: int, count: nat)
    ensures var iv := Iv(ssrc, timestamp, count);
      && |iv| == 12
      && FromBigEndian(iv[..4]) == ssrc % TWO32 && FromBigEndian(iv[4..8]) == timestamp % TWO32
      && FromBigEndian(iv[8..]) == (timestamp - count % 65535) % TWO32
  {
    var iv := Iv(ssrc, timestamp, count);
    Widths();
    BigEndianRoundTrip(ssrc % TWO32, 4);
    BigEndianRoundTrip(timestamp % TWO32, 4);
    BigEndianRoundTrip((timestamp - count % CYCLE) % TWO32, 4);
    assert iv[..4] == U32(ssrc) && iv[4..8] == U32(timestamp) && iv[8..] == U32(timestamp - count % CYCLE);
  }

  /** Two vectors coincide exactly when stream and timestamp agree in 32 bits and
      the counters are a whole number of cycles apart. */
  lemma IvsCoincide(s1: int, t1: int, c1: nat, s2: int, t2: int, c2: nat)
    ensures Iv(s1, t1, c1) == Iv(s2, t2, c2) <==>
      s1 % TWO32 == s2 % TWO32 && t1 % TWO32 == t2 % TWO32 && c1 % CYCLE == c2 % CYCLE
  {
    U32Injective(s1, s2);
    U32Injective(t1, t2);
    var d1, d2 := t1 - c1 % CYCLE, t2 - c2 % CYCLE;
    U32Injective(d1, d2);
    var a, b := Iv(s1, t1, c1), Iv(s2, t2, c2);
    assert a[..4] == U32(s1) && a[4..8] == U32(t1) && a[8..] == U32(d1);
    assert b[..4] == U32(s2) && b[4..8] == U32(t2) && b[8..] == U32(d2);
    if t1 % TWO32 == t2 % TWO32 {
      SameOffset(t1, t2, c1 % CYCLE, c2 % CYCLE);
    }
  }

  lemma SameOffset(t1: int, t2: int, x: nat, y: nat)
    requires t1 % TWO32 == t2 % TWO32 && x < CYCLE && y < CYCLE
    ensures (t1 - x) % TWO32 == (t2 - y) % TWO32 <==> x == y
  {
    var q1, q2 := t1 / TWO32, t2 / TWO32;
    var r1, r2 := (t1 - x) / TWO32, (t2 - y) / TWO32;
    assert t1 - t2 == TWO32 * (q1 - q2);
    if (t1 - x) % TWO32 == (t2 - y) % TWO32 {
      assert (t1 - x) - (t2 - y) == TWO32 * (r1 - r2);
      assert y - x == TWO32 * (r1 - r2 - q1 + q2);
    }
  }

  lemma NearCounters(a: nat, b: nat)
    requires a < b < a + CYCLE
    ensures a % CYCLE != b % CYCLE
  {
  }

  predicate IsIv(x: seq<byte>, ssrc: int, timestamp: int, count: nat) { x == Iv(ssrc, timestamp, count) }

  lemma ApartOrNear(x: seq<byte>, s1: int, t1: int, a: nat, y: seq<byte>, s2: int, t2: int, b: nat)
    requires IsIv(x, s1, t1, a) && IsIv(y, s2, t2, b)
    ensures s1 % TWO32 != s2 % TWO32 ==> x != y
    ensures s1 == s2 && a < b < a + CYCLE ==> x != y
  {
    IvsCoincide(s1, t1, a, s2, t2, b);
    if a < b < a + CYCLE {
      NearCounters(a, b);
    }
  }

  lemma FullCycle(c: nat)
    ensures (c + CYCLE) % CYCLE == c % CYCLE
  {
    assert c + CYCLE == CYCLE * (c / CYCLE + 1) + c % CYCLE;
  }

  /** One frame to be encrypted; `random` is what `Math.random` yields if a first
      frame of the stream needs it. */
  datatype Request = Request(ssrc: int, timestamp: int, random: nat)

  /** How many of the first `k` requests were for `ssrc`. */
  function Rank(reqs: seq<Request>, k: nat, ssrc: int): nat
    requires k <= |reqs|
  {
    if k == 0 then 0 else Rank(reqs, k - 1, ssrc) + (if reqs[k - 1].ssrc == ssrc then 1 else 0)
  }

  /** The counter a stream starts from: its own, or the random start of its first frame. */
  function StartOf(reqs: seq<Request>, counts: map<int, nat>, ssrc: int): nat {
    if ssrc in counts then counts[ssrc]
    else if reqs == [] then 0
    else if reqs[0].ssrc == ssrc then reqs[0].random
    else StartOf(reqs[1..], counts, ssrc)
  }

  function CountAt(reqs: seq<Request>, counts: map<int, nat>, k: nat): nat
    requires k < |reqs|
  {
    StartOf(reqs, counts, reqs[k].ssrc) + Rank(reqs, k, reqs[k].ssrc)
  }

  /** The vector of request `k` in a run: its stream's counter has moved once per
      earlier request of the stream. */
  function Expected(reqs: seq<Request>, counts: map<int, nat>, k: nat): seq<byte>
    requires k < |reqs|
  {
    Iv(reqs[k].ssrc, reqs[k].timestamp, CountAt(reqs, counts, k))
  }

  /** The counters `makeIV` keeps, one per stream. */
  class IvCounter {
    var sendCounts: map<int, nat>

    constructor ()
      ensures sendCounts == map[]
    {
      sendCounts := map[];
    }

    method MakeIV(ssrc: int, timestamp: int, random: nat) returns (iv: seq<byte>)
      modifies this
      ensures var c := if ssrc in old(sendCounts) then old(sendCounts)[ssrc] else random;
        iv == Iv(ssrc, timestamp, c) && sendCounts == old(sendCounts)[ssrc := c + 1]
    {
      if ssrc !in sendCounts {
        sendCounts := sendCounts[ssrc := random];
      }
      var a := sendCounts[ssrc];
      iv := Iv(ssrc, timestamp, a);
      sendCounts := sendCounts[ssrc := a + 1];
    }

    /** A whole run of one cryptor. */
    method MakeAll(reqs: seq<Request>) returns (ivs: seq<seq<byte>>)
      modifies this
      ensures |ivs| == |reqs|
      ensures forall k :: 0 <= k < |reqs| ==> ivs[k] == Expected(reqs, old(sendCounts), k)
    {
      ivs := [];
      ghost var counts := sendCounts;
      for i := 0 to |reqs|
        invariant |ivs| == i
        invariant forall s :: s in sendCounts <==> s in counts || Rank(reqs, i, s) > 0
        invariant forall s :: s in sendCounts ==> sendCounts[s] == StartOf(reqs, counts, s) + Rank(reqs, i, s)
        invariant forall k :: 0 <= k < i ==> ivs[k] == Expected(reqs, counts, k)
      {
        ghost var c := if reqs[i].ssrc in sendCounts then sendCounts[reqs[i].ssrc] else reqs[i].random;
        assert c == StartOf(reqs, counts, reqs[i].ssrc) + Rank(reqs, i, reqs[i].ssrc) by {
          if reqs[i].ssrc !in sendCounts {
            StartAtFirst(reqs, counts, i);
          }
        }
        var iv := MakeIV(reqs[i].ssrc, reqs[i].timestamp, reqs[i].random);
        ivs := ivs + [iv];
      }
    }
  }

  /** A stream not seen before request `i` starts from what request `i` drew. */
  lemma {:induction false} StartAtFirst(reqs: seq<Request>, counts: map<int, nat>, i: nat)
    requires i < |reqs| && reqs[i].ssrc !in counts && Rank(reqs, i, reqs[i].ssrc) == 0
    ensures StartOf(reqs, counts, reqs[i].ssrc) == reqs[i].random
    decreases i
  {
    if i > 0 {
      RankTail(reqs, i, reqs[i].ssrc);
      StartAtFirst(reqs[1..], counts, i - 1);
    }
  }

  lemma {:induction false} RankTail(reqs: seq<Request>, k: nat, ssrc: int)
    requires 0 < k <= |reqs|
    ensures Rank(reqs, k, ssrc) == Rank(reqs[1..], k - 1, ssrc) + (if reqs[0].ssrc == ssrc then 1 else 0)
    decreases k
  {
    if k > 1 {
      RankTail(reqs, k - 1, ssrc);
    }
  }

  lemma {:induction false} RankGrows(reqs: seq<Request>, i: nat, j: nat)
    requires i < j <= |reqs|
    ensures Rank(reqs, i, reqs[i].ssrc) < Rank(reqs, j, reqs[i].ssrc)
    decreases j
  {
    if j > i + 1 {
      RankGrows(reqs, i, j - 1);
    }
  }

  /** Any 65535 consecutive vectors of one stream are pairwise distinct, whatever
      the timestamps; vectors of different 32-bit streams never coincide. */
  lemma IvsDistinct(reqs: seq<Request>, counts: map<int, nat>, ivs: seq<seq<byte>>, i: nat, j: nat)
    requires i < j < |reqs| == |ivs|
    requires forall k :: 0 <= k < |reqs| ==> ivs[k] == Expected(reqs, counts, k)
    ensures reqs[i].ssrc % TWO32 != reqs[j].ssrc % TWO32 ==> ivs[i] != ivs[j]
    ensures reqs[i].ssrc == reqs[j].ssrc && Rank(reqs, j, reqs[j].ssrc) - Rank(reqs, i, reqs[i].ssrc) < CYCLE ==>
      ivs[i] != ivs[j]
  {
    RankGrows(reqs, i, j);
    var a, b := CountAt(reqs, counts, i), CountAt(reqs, counts, j);
    ExpectedIs(reqs, counts, i, ivs[i]);
    ExpectedIs(reqs, counts, j, ivs[j]);
    ApartOrNear(ivs[i], reqs[i].ssrc, reqs[i].timestamp, a, ivs[j], reqs[j].ssrc, reqs[j].timestamp, b);
  }

  lemma ExpectedIs(reqs: seq<Request>, counts: map<int, nat>, k: nat, iv: seq<byte>)
    requires k < |reqs| && iv == Expected(reqs, counts, k)
    ensures IsIv(iv, reqs[k].ssrc, reqs[k].timestamp, CountAt(reqs, counts, k))
  {
  }

  /** The bound is tight: a full cycle later the same timestamp repeats the vector. */
  lemma CycleRepeats(ssrc: int, timestamp: int, count: nat)
    ensures Iv(ssrc, timestamp, count) == Iv(ssrc, timestamp, count + CYCLE)
  {
    FullCycle(count);
  }
}
