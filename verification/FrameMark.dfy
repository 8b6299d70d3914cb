/**
  The mark of server-injected frames against frames that were encrypted: which of them
  can happen to end in the mark, sent as they are or with emulation prevention.
*/
module FrameMark {
  import opened Wrappers
  import opened Bytes
  import opened FrameCryptor
  import EmulationPrevention

  /** The mark of a server-injected frame ends as encrypted frames with this key index do. */
  predicate Collides(sif: seq<byte>, index: byte) {
    sif != [] && sif[|sif| - 1] == index && (|sif| >= 2 ==> sif[|sif| - 2] == IV_LENGTH)
  }

  /** What stands between the clear header and the end of the frame, before escaping:
      the text, a tag, the vector, its length and the key index. */
  function SealedLength(c: Clear, data: seq<byte>): nat
    requires c.Clear? && c.bytes <= |data|
  {
    |data| - c.bytes + 30
  }

  function SentAs(nalu: bool, s: seq<byte>): seq<byte> { if nalu then EmulationPrevention.Escape(s, 0) else s }

  /** How many sealed bytes `s` stands for on the wire. */
  function Carried(nalu: bool, s: seq<byte>): nat { if nalu then |EmulationPrevention.Unescape(s)| else |s| }

  ghost predicate Sendable(nalu: bool, s: seq<byte>) { nalu ==> EmulationPrevention.Spellable(s) }

  /** The first `j` bytes of the mark are the last of the clear header, and the rest can
      be what is sent behind it: all of that, or with `j == 0` its end. */
  ghost predicate FitsAt(sif: seq<byte>, c: Clear, data: seq<byte>, j: nat)
    requires c.Clear? && c.bytes <= |data|
  {
    && j <= |sif| && j <= c.bytes && sif[..j] == data[c.bytes - j..c.bytes] && Sendable(c.nalu, sif[j..])
    && if j == 0 then Carried(c.nalu, sif) <= SealedLength(c, data)
      else Carried(c.nalu, sif[j..]) == SealedLength(c, data)
  }

  /** Under some cipher and vector the frame ends in the mark. */
  ghost predicate Possible(sif: seq<byte>, index: byte, c: Clear, data: seq<byte>)
    requires c.Clear? && c.bytes <= |data|
  {
    Collides(sif, index) && exists j: nat :: FitsAt(sif, c, data, j)
  }

  lemma CarriesNoMore(nalu: bool, s: seq<byte>)
    ensures Carried(nalu, s) <= |s|
  {
    EmulationPrevention.UnescapeShrinks(s);
  }

  /** A mark no longer than the sealed part is met exactly by colliding, and for an
      escaped frame by being what escaping can emit. */
  lemma ShortMark(sif: seq<byte>, index: byte, c: Clear, data: seq<byte>)
    requires c.Clear? && c.bytes <= |data| && |sif| <= SealedLength(c, data)
    ensures Possible(sif, index, c, data) <==> Collides(sif, index) && Sendable(c.nalu, sif)
  {
    assert sif[0..] == sif && sif[..0] == [];
    CarriesNoMore(c.nalu, sif);
    if Sendable(c.nalu, sif) {
      assert FitsAt(sif, c, data, 0);
    }
    forall j: nat | j > 0 && j <= |sif| ensures Carried(c.nalu, sif[j..]) < SealedLength(c, data) {
      CarriesNoMore(c.nalu, sif[j..]);
    }
  }

  // ------------------------------------------------- a frame that ends in it

  lemma LastTwo(e: seq<byte>, sif: seq<byte>, index: byte)
    requires EndsWith(e, sif) && |e| >= 2 && e[|e| - 2] == IV_LENGTH && e[|e| - 1] == index
    ensures Collides(sif, index)
  {
    var tail := e[|e| - |sif|..];
    assert tail[|sif| - 1] == index && (|sif| >= 2 ==> tail[|sif| - 2] == IV_LENGTH);
  }

  /** The end of a sent part carries no more than the whole. */
  lemma EndCarries(nalu: bool, s: seq<byte>, i: nat)
    requires var m := SentAs(nalu, s); i <= |m|
    ensures var m := SentAs(nalu, s);
      Sendable(nalu, m[i..]) && Carried(nalu, m[i..]) <= |s| && (i == 0 ==> Carried(nalu, m) == |s|)
  {
    if nalu {
      var m := EmulationPrevention.Escape(s, 0);
      EmulationPrevention.EscapeSound(s);
      EmulationPrevention.SpellableExactly(m);
      EmulationPrevention.SpellableEnd(m, i);
      EmulationPrevention.ShorterEnd(m, i);
    }
  }

  /** Where the mark begins in header and sent part. */
  lemma CutAt(h: seq<byte>, m: seq<byte>, sif: seq<byte>) returns (j: nat)
    requires EndsWith(h + m, sif)
    ensures j <= |sif| && j <= |h| && sif[..j] == h[|h| - j..]
    ensures if j == 0 then |sif| <= |m| && sif == m[|m| - |sif|..] else sif[j..] == m
  {
    var e := h + m;
    j := if |sif| <= |m| then 0 else |sif| - |m|;
    var tail := e[|e| - |sif|..];
    if j == 0 {
      assert tail == m[|m| - |sif|..];
    } else {
      assert tail == h[|h| - j..] + m;
    }
  }

  lemma Met(a: Aead, key: CipherKey, index: byte, iv: seq<byte>, c: Clear, data: seq<byte>, sif: seq<byte>)
    requires Ideal(a) && |iv| == IV_LENGTH && c.Clear? && c.bytes <= |data|
    requires EndsWith(Encrypted(a, key, index, iv, c, data), sif)
    ensures Possible(sif, index, c, data)
  {
    var h, s := data[..c.bytes], Sealed(a, key, index, iv, data[..c.bytes], data[c.bytes..]);
    var m := SentAs(c.nalu, s);
    KeyIndexSurvives(a, key, index, iv, c, data);
    LastTwo(Encrypted(a, key, index, iv, c, data), sif, index);
    assert |s| == SealedLength(c, data);
    var j := CutAt(h, m, sif);
    EndCarries(c.nalu, s, if j == 0 then |m| - |sif| else 0);
    assert m[0..] == m && sif[0..] == sif;
    assert h[|h| - j..] == data[c.bytes - j..c.bytes];
    assert FitsAt(sif, c, data, j);
  }

  // ------------------------------------------------- a cipher that spells it

  /** An ideal cipher that seals `text` to `w`. */
  function Chosen(text: seq<byte>, w: seq<byte>): Aead
    requires w != []
  {
    var pad := seq(16, _ => (255 - w[0]) as byte);
    Aead((key: CipherKey, iv: seq<byte>, aad: seq<byte>, t: seq<byte>) => if t == text then w else pad + t,
         (key: CipherKey, iv: seq<byte>, aad: seq<byte>, c: seq<byte>) =>
           if c == w then Some(text) else if |c| >= 16 then Some(c[16..]) else None)
  }

  lemma ChosenIsIdeal(text: seq<byte>, w: seq<byte>)
    requires |w| == |text| + 16
    ensures Ideal(Chosen(text, w))
  {
    var a := Chosen(text, w);
    forall key: CipherKey, iv: seq<byte>, aad: seq<byte>, t: seq<byte>
      ensures |a.seal(key, iv, aad, t)| == |t| + 16 && a.open(key, iv, aad, a.seal(key, iv, aad, t)) == Some(t)
    {
      var c := a.seal(key, iv, aad, t);
      if t != text {
        assert c[0] == 255 - w[0] && c[16..] == t;
      }
    }
  }

  /** Sealed bytes of the length wanted whose sent form is `v`, behind bytes of 12. */
  lemma Behind(nalu: bool, v: seq<byte>, length: nat, index: byte) returns (s: seq<byte>, k: nat)
    requires v != [] && v[|v| - 1] == index && (|v| >= 2 ==> v[|v| - 2] == IV_LENGTH)
    requires Sendable(nalu, v) && Carried(nalu, v) <= length && length >= 2
    ensures |s| == length && s[|s| - 2] == IV_LENGTH && s[|s| - 1] == index && k == length - Carried(nalu, v)
    ensures SentAs(nalu, s) == EmulationPrevention.Twelves(k) + v
  {
    var x := if nalu then EmulationPrevention.Unescape(v) else v;
    k := length - |x|;
    s := EmulationPrevention.Twelves(k) + x;
    if nalu {
      EmulationPrevention.SpellableExactly(v);
      EmulationPrevention.Padded(k, x);
      EmulationPrevention.EndRead(x);
    }
    PaddedEnd(x, k, index);
  }

  lemma PaddedEnd(x: seq<byte>, k: nat, index: byte)
    requires x != [] && x[|x| - 1] == index && (|x| >= 2 ==> x[|x| - 2] == IV_LENGTH) && k + |x| >= 2
    ensures var s := EmulationPrevention.Twelves(k) + x;
      |s| == k + |x| && s[|s| - 2] == IV_LENGTH && s[|s| - 1] == index
  {
  }

  /** The cipher text and vector that make the frame end as wanted. */
  lemma Split(key: CipherKey, index: byte, c: Clear, data: seq<byte>, s: seq<byte>) returns (a: Aead, iv: seq<byte>)
    requires c.Clear? && c.bytes <= |data| && |s| == SealedLength(c, data)
    requires s[|s| - 2] == IV_LENGTH && s[|s| - 1] == index
    ensures Ideal(a) && |iv| == IV_LENGTH
    ensures Encrypted(a, key, index, iv, c, data) == data[..c.bytes] + SentAs(c.nalu, s)
  {
    var text := data[c.bytes..];
    var w := s[..|text| + 16];
    a, iv := Chosen(text, w), s[|text| + 16..|text| + 28];
    ChosenIsIdeal(text, w);
    assert s == w + iv + [IV_LENGTH, index];
  }

  lemma EndOfBoth(h: seq<byte>, pad: seq<byte>, v: seq<byte>, j: nat)
    requires j <= |h| && (j == 0 || pad == []) && v != []
    ensures EndsWith(h + (pad + v), h[|h| - j..] + v)
  {
    var e, sif := h + (pad + v), h[|h| - j..] + v;
    assert e[|e| - |sif|..] == sif;
  }

  /** What of the mark lies behind the header ends as the mark does. */
  lemma RestEnds(sif: seq<byte>, index: byte, c: Clear, data: seq<byte>, j: nat)
    requires c.Clear? && c.bytes <= |data| && Collides(sif, index) && FitsAt(sif, c, data, j)
    ensures var v := sif[j..];
      v != [] && v[|v| - 1] == index && (|v| >= 2 ==> v[|v| - 2] == IV_LENGTH) &&
      Sendable(c.nalu, v) && Carried(c.nalu, v) <= SealedLength(c, data) &&
        (j > 0 ==> Carried(c.nalu, v) == SealedLength(c, data))
  {
    if j == 0 {
      assert sif[0..] == sif;
    } else {
      assert sif[j..] != [];
    }
  }

  lemma MarkParts(sif: seq<byte>, data: seq<byte>, b: nat, j: nat)
    requires j <= b <= |data| && j <= |sif| && sif[..j] == data[b - j..b]
    ensures data[..b][b - j..] + sif[j..] == sif
  {
    assert data[..b][b - j..] == data[b - j..b];
    assert sif == sif[..j] + sif[j..];
  }

  /** The wire `e` is header, padding and the rest of the mark. */
  lemma EndsInMark(e: seq<byte>, data: seq<byte>, b: nat, m: seq<byte>, k: nat, sif: seq<byte>, j: nat)
    requires j <= b <= |data| && j < |sif| && sif[..j] == data[b - j..b] && (j == 0 || k == 0)
    requires e == data[..b] + m && m == EmulationPrevention.Twelves(k) + sif[j..]
    ensures EndsWith(e, sif)
  {
    MarkParts(sif, data, b, j);
    EndOfBoth(data[..b], EmulationPrevention.Twelves(k), sif[j..], j);
  }

  /** Sealed bytes behind which the frame ends in the mark. */
  lemma Wanted(index: byte, c: Clear, data: seq<byte>, sif: seq<byte>, j: nat) returns (s: seq<byte>)
    requires c.Clear? && c.bytes <= |data| && Collides(sif, index) && FitsAt(sif, c, data, j)
    ensures |s| == SealedLength(c, data) && s[|s| - 2] == IV_LENGTH && s[|s| - 1] == index
    ensures EndsWith(data[..c.bytes] + SentAs(c.nalu, s), sif)
  {
    RestEnds(sif, index, c, data, j);
    var k;
    s, k := Behind(c.nalu, sif[j..], SealedLength(c, data), index);
    EndsInMark(data[..c.bytes] + SentAs(c.nalu, s), data, c.bytes, SentAs(c.nalu, s), k, sif, j);
  }

  /** Cipher text and vector may happen to spell the mark. */
  lemma Spelled(key: CipherKey, index: byte, c: Clear, data: seq<byte>, sif: seq<byte>) returns (a: Aead, iv: seq<byte>)
    requires c.Clear? && c.bytes <= |data| && Possible(sif, index, c, data)
    ensures Ideal(a) && |iv| == IV_LENGTH && EndsWith(Encrypted(a, key, index, iv, c, data), sif)
  {
    var j: nat :| FitsAt(sif, c, data, j);
    var s := Wanted(index, c, data, sif, j);
    a, iv := Split(key, index, c, data, s);
  }
}
