/**
  Frames in which the sender found no slice. A fixed number of bytes stays clear and
  the rest is not escaped, so the receiver's scan runs into cipher text. Which of
  these frames arrive whatever the cipher text is, the clear header decides.
*/
module FrameFallback {
  import opened Wrappers
  import opened Bytes
  import opened FrameCryptor
  import NalUnits
  import EmulationPrevention

  /** No slice was found, and the fixed number of bytes is there. */
  ghost predicate Fallback(f: Format, data: seq<byte>) {
    f.kind != Audio && f.codec !in {Some(Vp8), Some(Vp9), Some(Av1)} &&
    ClearPart(f, data) == Clear(DefaultClear(f.kind), false) && DefaultClear(f.kind) <= |data|
  }

  /** The first non-zero byte of the header ends no start code. */
  ghost predicate Guarded(h: seq<byte>) {
    exists p :: 0 <= p < |h| && h[p] != 0 && NalUnits.AllZero(h, p) && !(p >= 2 && h[p] == 1)
  }

  /** What is put on the wire is decrypted to the frame, for every ideal cipher, key,
      key index and vector. */
  ghost predicate Arrives(f: Format, data: seq<byte>) {
    forall a: Aead, key: CipherKey, index: byte, iv: seq<byte> :: Ideal(a) && |iv| == IV_LENGTH ==>
      var w := Emitted(a, key, index, iv, f, data); w.Some? && Decrypted(a, key, f, w.value) == Some(data)
  }

  lemma GuardedArrives(a: Aead, key: CipherKey, index: byte, iv: seq<byte>, f: Format, data: seq<byte>)
    requires Ideal(a) && |iv| == IV_LENGTH && Fallback(f, data) && Guarded(data[..DefaultClear(f.kind)])
    ensures Decrypted(a, key, f, Encrypted(a, key, index, iv, ClearPart(f, data), data)) == Some(data)
  {
    var h := data[..DefaultClear(f.kind)];
    var wire := Encrypted(a, key, index, iv, ClearPart(f, data), data);
    var p :| 0 <= p < |h| && h[p] != 0 && NalUnits.AllZero(h, p) && !(p >= 2 && h[p] == 1);
    assert forall k :: 0 <= k <= p ==> wire[k] == h[k];
    NalUnits.LeadInRefused(wire, p, Wanted(f.codec));
    SameSplitRoundTrip(a, key, index, iv, f, data);
  }

  // ------------------------------------------ a cipher that loses the frame

  /** A slice header of the codec looked for. */
  function SliceByte(want: Option<NalUnits.Codec>): byte { if want == Some(NalUnits.H265) then 2 else 0x65 }

  /** Sixteen bytes in front of the text: for a header of `b` bytes a start code, a
      slice and an emulation mark, for any other something that is neither. */
  function Front(b: nat, slice: byte, n: nat): (s: seq<byte>)
    ensures |s| == 16
  {
    if n == b then [0, 0, 1, slice, 7, 0, 0, 3] + seq(8, _ => 7 as byte) else seq(16, _ => 255 as byte)
  }

  function Decoy(b: nat, slice: byte): Aead {
    Aead((key: CipherKey, iv: seq<byte>, aad: seq<byte>, text: seq<byte>) => Front(b, slice, |aad|) + text,
         (key: CipherKey, iv: seq<byte>, aad: seq<byte>, c: seq<byte>) =>
           if |c| >= 16 && c[..16] == Front(b, slice, |aad|) then Some(c[16..]) else None)
  }

  lemma DecoyIsIdeal(b: nat, slice: byte)
    ensures Ideal(Decoy(b, slice))
  {
    var a := Decoy(b, slice);
    forall key: CipherKey, iv: seq<byte>, aad: seq<byte>, text: seq<byte>
      ensures |a.seal(key, iv, aad, text)| == |text| + 16 &&
        a.open(key, iv, aad, a.seal(key, iv, aad, text)) == Some(text)
    {
      var c := a.seal(key, iv, aad, text);
      assert c[..16] == Front(b, slice, |aad|) && c[16..] == text;
    }
  }

  /** The frame on the wire under that cipher. */
  predicate OnWire(wire: seq<byte>, h: seq<byte>, slice: byte) {
    |wire| >= |h| + 30 && wire[..|h|] == h && wire[|h|..|h| + 16] == Front(|h|, slice, |h|)
  }

  /** An unguarded header lets the receiver find the slice in the cipher text. */
  lemma SliceSeen(wire: seq<byte>, h: seq<byte>, want: Option<NalUnits.Codec>)
    requires OnWire(wire, h, SliceByte(want)) && !Guarded(h)
    ensures NalUnits.ClearBytes(wire, want).Some? && NalUnits.ClearBytes(wire, want).value <= |h| + 5
  {
    var b, front := |h|, Front(|h|, SliceByte(want), |h|);
    forall k | 0 <= k < 4 ensures wire[b + k] == front[k] {
      assert wire[b..b + 16][k] == front[k];
    }
    forall k | 0 <= k < b ensures wire[k] == h[k] {
      assert wire[..b][k] == h[k];
    }
    assert NalUnits.Three(wire, b) && NalUnits.Matches(wire[b + 3], want);
    if !NalUnits.AllZero(h, b) {
      var p := FirstNonZero(h);
      assert p >= 2 && h[p] == 1;
      assert 2 <= p < b && wire[p] == 1 && NalUnits.AllZero(wire, p);
    }
    NalUnits.ScannedPast(wire, b, want);
  }

  lemma {:induction false} FirstNonZero(h: seq<byte>) returns (p: nat)
    requires !NalUnits.AllZero(h, |h|)
    ensures p < |h| && h[p] != 0 && NalUnits.AllZero(h, p)
    decreases |h|
  {
    if NalUnits.AllZero(h, |h| - 1) {
      p := |h| - 1;
    } else {
      var g := h[..|h| - 1];
      assert !NalUnits.AllZero(g, |g|);
      p := FirstNonZero(g);
    }
  }

  /** Sixteen bytes of 255 in what was read stand as they are in what was sent. */
  lemma FrontRead(e: seq<byte>, rest: seq<byte>)
    requires rest == e || rest == EmulationPrevention.Unescape(e)
    ensures |rest| >= 16 && rest[..16] == seq(16, _ => 255 as byte) ==>
      |e| >= 16 && forall k :: 0 <= k < 16 ==> e[k] == 255
  {
    if |rest| >= 16 && rest[..16] == seq(16, _ => 255 as byte) {
      forall k | 0 <= k < 16 ensures rest[k] == 255 {
        assert rest[k] == rest[..16][k];
      }
      if rest != e {
        EmulationPrevention.UnescapeFront(e, 16);
      }
    }
  }

  /** At another split the cipher opens nothing that begins within its front. */
  lemma OtherSplitFails(wire: seq<byte>, h: seq<byte>, slice: byte, n: nat, rest: seq<byte>)
    requires OnWire(wire, h, slice) && slice != 255 && n <= |h| + 5 && n != |h| && |h| < n + 16
    requires rest == wire[n..] || rest == EmulationPrevention.Unescape(wire[n..])
    ensures !(|rest| >= 16 && rest[..16] == Front(|h|, slice, n))
  {
    var b, e, front := |h|, wire[n..], Front(|h|, slice, |h|);
    var j := if n > b then 0 else b - n;
    assert e[j] == wire[n + j] == wire[b..b + 16][n + j - b] == front[n + j - b];
    assert e[j] != 255;
    FrontRead(e, rest);
  }

  /** At the same split the receiver takes the mark for emulation prevention. */
  lemma MarkSpoils(wire: seq<byte>, h: seq<byte>, slice: byte)
    requires OnWire(wire, h, slice)
    ensures var e := wire[|h|..]; var rest := EmulationPrevention.Unescape(e);
      EmulationPrevention.NeedsUnescape(e) && !(|rest| >= 16 && rest[..16] == Front(|h|, slice, |h|))
  {
    var e, front := wire[|h|..], Front(|h|, slice, |h|);
    forall k | 0 <= k < 16 ensures e[k] == front[k] {
      assert e[k] == wire[|h|..|h| + 16][k];
    }
    assert EmulationPrevention.MarkAt(e, 5) && 5 + 3 < |e|;
    var z := e[8..];
    EmulationPrevention.PassOne(e);
    EmulationPrevention.PassOne(e[1..]);
    EmulationPrevention.PassOne(e[2..]);
    EmulationPrevention.PassOne(e[3..]);
    EmulationPrevention.PassOne(e[4..]);
    assert e[1..][1..] == e[2..] && e[2..][1..] == e[3..] && e[3..][1..] == e[4..] && e[4..][1..] == e[5..];
    assert EmulationPrevention.MarkAt(e[5..], 0) && e[5..][3..] == z;
    EmulationPrevention.PassOne(z);
    var rest := EmulationPrevention.Unescape(e);
    assert rest == [0, 0, 1, slice, 7] + ([0, 0] + ([7] + EmulationPrevention.Unescape(z[1..])));
    assert rest[7] == 7 && front[7] == 3;
    assert |rest| >= 16 ==> rest[..16][7] == rest[7];
  }

  lemma DecoyOpensNothing(b: nat, slice: byte, key: CipherKey, clear: nat, d: seq<byte>)
    requires clear <= |d|
    requires var rest := d[clear..]; !(|rest| >= 16 && rest[..16] == Front(b, slice, clear))
    ensures Opened(Decoy(b, slice), key, clear, d) == None
  {
    if |d| >= 2 && clear + d[|d| - 2] + 2 <= |d| {
      var end := |d| - d[|d| - 2] - 2;
      var c := d[clear..end];
      assert |c| >= 16 ==> d[clear..][..16] == c[..16];
    }
  }

  /** Whatever is left to open after the receiver's split, the decoy does not open it. */
  lemma DecoyOpensNone(wire: seq<byte>, h: seq<byte>, slice: byte, n: nat, key: CipherKey)
    requires OnWire(wire, h, slice) && slice != 255 && n <= |h| + 5 && |h| < n + 16
    ensures Opened(Decoy(|h|, slice), key, n, Readable(Clear(n, true), wire)) == None
  {
    var e, d := wire[n..], Readable(Clear(n, true), wire);
    var rest := if EmulationPrevention.NeedsUnescape(e) then EmulationPrevention.Unescape(e) else e;
    assert d == wire[..n] + rest && d[n..] == rest;
    if n == |h| {
      MarkSpoils(wire, h, slice);
    } else {
      OtherSplitFails(wire, h, slice, n, rest);
    }
    DecoyOpensNothing(|h|, slice, key, n, d);
  }

  lemma DecoyOnWire(key: CipherKey, index: byte, iv: seq<byte>, data: seq<byte>, b: nat, slice: byte)
    requires b <= |data| && |iv| == IV_LENGTH
    ensures OnWire(Encrypted(Decoy(b, slice), key, index, iv, Clear(b, false), data), data[..b], slice)
  {
    var h, text := data[..b], data[b..];
    var wire := Encrypted(Decoy(b, slice), key, index, iv, Clear(b, false), data);
    assert |h| == b && wire == h + (Front(b, slice, b) + text + iv + [IV_LENGTH, index]);
    assert wire[b..b + 16] == Front(b, slice, b);
  }

  lemma UnguardedLost(key: CipherKey, index: byte, iv: seq<byte>, f: Format, data: seq<byte>)
    requires |iv| == IV_LENGTH && Fallback(f, data) && !Guarded(data[..DefaultClear(f.kind)])
    ensures var b := DefaultClear(f.kind); var a := Decoy(b, SliceByte(Wanted(f.codec)));
      Decrypted(a, key, f, Encrypted(a, key, index, iv, ClearPart(f, data), data)) == None
  {
    var b, want := DefaultClear(f.kind), Wanted(f.codec);
    var h, slice := data[..b], SliceByte(want);
    var wire := Encrypted(Decoy(b, slice), key, index, iv, Clear(b, false), data);
    DecoyOnWire(key, index, iv, data, b, slice);
    SliceSeen(wire, h, want);
    DecoyOpensNone(wire, h, slice, NalUnits.ClearBytes(wire, want).value, key);
  }

  /** A frame in which no slice was found arrives under every cipher, key and vector
      exactly when the first non-zero byte of its clear header is there and ends no
      start code. */
  lemma FallbackExactly(f: Format, data: seq<byte>)
    requires data != [] && Fallback(f, data)
    ensures Arrives(f, data) <==> Guarded(data[..DefaultClear(f.kind)])
  {
    var b := DefaultClear(f.kind);
    if Guarded(data[..b]) {
      forall a: Aead, key: CipherKey, index: byte, iv: seq<byte> | Ideal(a) && |iv| == IV_LENGTH
        ensures Decrypted(a, key, f, Encrypted(a, key, index, iv, ClearPart(f, data), data)) == Some(data)
      {
        GuardedArrives(a, key, index, iv, f, data);
      }
    } else {
      var a, iv := Decoy(b, SliceByte(Wanted(f.codec))), seq(12, _ => 0 as byte);
      DecoyIsIdeal(b, SliceByte(Wanted(f.codec)));
      UnguardedLost(0, 0, iv, f, data);
      assert Ideal(a) && |iv| == IV_LENGTH;
      assert Emitted(a, 0, 0, iv, f, data) == Some(Encrypted(a, 0, 0, iv, ClearPart(f, data), data));
    }
  }

  /** Of all frames with bytes in them, exactly those arrive whose split is known and
      those whose fallback header is guarded. */
  lemma ArrivesExactly(f: Format, data: seq<byte>)
    requires data != []
    ensures Arrives(f, data) <==> SplitKnown(f, data) || (Fallback(f, data) && Guarded(data[..DefaultClear(f.kind)]))
  {
    if SplitKnown(f, data) {
      forall a: Aead, key: CipherKey, index: byte, iv: seq<byte> | Ideal(a) && |iv| == IV_LENGTH
        ensures Decrypted(a, key, f, Encrypted(a, key, index, iv, ClearPart(f, data), data)) == Some(data)
      {
        FrameRoundTrip(a, key, index, iv, f, data);
      }
    } else if Fallback(f, data) {
      FallbackExactly(f, data);
    } else {
      var a, iv := Decoy(0, 0), seq(12, _ => 0 as byte);
      DecoyIsIdeal(0, 0);
      assert Ideal(a) && |iv| == IV_LENGTH;
      assert Emitted(a, 0, 0, iv, f, data) == None;
    }
  }
}
