/**
  The frame cryptor: which leading bytes stay clear, how an encrypted frame is
  laid out, and how it is taken apart. The cipher is ideal: opening what was
  sealed with the same key, vector and associated data gives the plaintext back.
*/
module FrameCryptor {
  import opened Wrappers
  import opened Bytes
  import opened FrameIv
  import NalUnits
  import EmulationPrevention
  import PacketTrailer

  type CipherKey = nat

  datatype Aead = Aead(
    seal: (CipherKey, seq<byte>, seq<byte>, seq<byte>) -> seq<byte>,
    open: (CipherKey, seq<byte>, seq<byte>, seq<byte>) -> Option<seq<byte>>)

  /** `seal` and `open` take key, vector, associated data and text; a 16-byte tag. */
  ghost predicate Ideal(a: Aead) {
    forall key, iv, aad, text ::
      |a.seal(key, iv, aad, text)| == |text| + 16 && a.open(key, iv, aad, a.seal(key, iv, aad, text)) == Some(text)
  }

  datatype Kind = Audio | Key | Delta | Empty
  datatype VideoCodec = Vp8 | Vp9 | Av1 | H264 | H265

  /** What both ends know of a frame besides its bytes. */
  datatype Format = Format(kind: Kind, codec: Option<VideoCodec>) {
    predicate Video() { kind != Audio }
  }

  datatype Clear = Clear(bytes: nat, nalu: bool) | Unsupported

  function DefaultClear(kind: Kind): nat {
    match kind
    case Audio => 1
    case Key => 10
    case Delta => 3
    case Empty => 0
  }

  function Wanted(codec: Option<VideoCodec>): Option<NalUnits.Codec> {
    if codec == Some(H264) then Some(NalUnits.H264)
    else if codec == Some(H265) then Some(NalUnits.H265)
    else None
  }

  /** `getUnencryptedBytes`. */
  ghost function ClearPart(f: Format, data: seq<byte>): Clear {
    if f.kind == Audio then Clear(DefaultClear(Audio), false)
    else if f.codec == Some(Av1) then Unsupported
    else if f.codec == Some(Vp8) then Clear(DefaultClear(f.kind), false)
    else if f.codec == Some(Vp9) then Clear(0, false)
    else
      var n := NalUnits.ClearBytes(data, Wanted(f.codec));
      if n.Some? then Clear(n.value, true) else Clear(DefaultClear(f.kind), false)
  }

  method GetUnencryptedBytes(f: Format, data: seq<byte>) returns (c: Clear)
    ensures c == ClearPart(f, data)
  {
    if f.kind == Audio {
      return Clear(DefaultClear(Audio), false);
    }
    match f.codec {
      case Some(Av1) => return Unsupported;
      case Some(Vp8) => return Clear(DefaultClear(f.kind), false);
      case Some(Vp9) => return Clear(0, false);
      case _ =>
        var n := NalUnits.FindClearBytes(data, Wanted(f.codec));
        if n.Some? {
          return Clear(n.value, true);
        }
        return Clear(DefaultClear(f.kind), false);
    }
  }

  // ------------------------------------------------------------- layout

  const IV_LENGTH: byte := 12

  /** Cipher text, vector, vector length, key index. */
  function Sealed(a: Aead, key: CipherKey, index: byte, iv: seq<byte>, header: seq<byte>, text: seq<byte>): seq<byte> {
    a.seal(key, iv, header, text) + iv + [IV_LENGTH, index]
  }

  function Encrypted(a: Aead, key: CipherKey, index: byte, iv: seq<byte>, c: Clear, data: seq<byte>): seq<byte>
    requires c.Clear? && c.bytes <= |data|
  {
    var s := Sealed(a, key, index, iv, data[..c.bytes], data[c.bytes..]);
    data[..c.bytes] + (if c.nalu then EmulationPrevention.Escape(s, 0) else s)
  }

  /** `encodeFunction` with a key: an empty frame passes as it is; None when the frame
      is shorter than its clear part or of an unsupported codec, which rejects the
      transform. */
  ghost function Emitted(a: Aead, key: CipherKey, index: byte, iv: seq<byte>, f: Format,
          data: seq<byte>): Option<seq<byte>> {
    var c := ClearPart(f, data);
    if data == [] then Some([])
    else if c.Unsupported? || c.bytes > |data| then None
    else Some(Encrypted(a, key, index, iv, c, data))
  }

  method Encode(a: Aead, key: CipherKey, index: byte, iv: seq<byte>, f: Format, data: seq<byte>)
    returns (r: Option<seq<byte>>)
    ensures r == Emitted(a, key, index, iv, f, data)
  {
    if data == [] {
      return Some([]);
    }
    var c := GetUnencryptedBytes(f, data);
    if c.Unsupported? || c.bytes > |data| {
      return None;
    }
    var header, text := data[..c.bytes], data[c.bytes..];
    var sealed := a.seal(key, iv, header, text) + iv + [IV_LENGTH, index];
    if c.nalu {
      sealed := EmulationPrevention.EscapeBytes(sealed);
    }
    return Some(header + sealed);
  }

  /** The bytes the receiver works on: emulation prevention taken out if it is there. */
  ghost function Readable(c: Clear, wire: seq<byte>): seq<byte>
    requires c.Clear? && c.bytes <= |wire|
  {
    if c.nalu && EmulationPrevention.NeedsUnescape(wire[c.bytes..])
    then wire[..c.bytes] + EmulationPrevention.Unescape(wire[c.bytes..])
    else wire
  }

  /** `decryptFrame` from the bytes with emulation prevention removed. */
  function Opened(a: Aead, key: CipherKey, clear: nat, d: seq<byte>): Option<seq<byte>> {
    if |d| < 2 || clear > |d| then None
    else
      var ivLength := d[|d| - 2];
      if clear + ivLength + 2 > |d| then None
      else
        var end := |d| - ivLength - 2;
        var text := a.open(key, d[end..|d| - 2], d[..clear], d[clear..end]);
        if text.Some? then Some(d[..clear] + text.value) else None
  }

  ghost function Decrypted(a: Aead, key: CipherKey, f: Format, wire: seq<byte>): Option<seq<byte>> {
    var c := ClearPart(f, wire);
    if c.Unsupported? || c.bytes > |wire| then None
    else Opened(a, key, c.bytes, Readable(c, wire))
  }

  method Open(a: Aead, key: CipherKey, clear: nat, d: seq<byte>) returns (r: Option<seq<byte>>)
    ensures r == Opened(a, key, clear, d)
  {
    if |d| < 2 || clear > |d| {
      return None;
    }
    var ivLength := d[|d| - 2];
    if clear + ivLength + 2 > |d| {
      return None;
    }
    var end := |d| - ivLength - 2;
    var text := a.open(key, d[end..|d| - 2], d[..clear], d[clear..end]);
    return if text.Some? then Some(d[..clear] + text.value) else None;
  }

  /** One attempt of `decryptFrame`; None is any exception it raises. */
  method Decrypt(a: Aead, key: CipherKey, f: Format, wire: seq<byte>) returns (r: Option<seq<byte>>)
    ensures r == Decrypted(a, key, f, wire)
  {
    var c := GetUnencryptedBytes(f, wire);
    if c.Unsupported? || c.bytes > |wire| {
      return None;
    }
    var data := wire;
    if c.nalu {
      var needs := EmulationPrevention.ScanForMark(wire[c.bytes..]);
      if needs {
        var rest := EmulationPrevention.UnescapeBytes(wire[c.bytes..]);
        data := wire[..c.bytes] + rest;
      }
    }
    r := Open(a, key, c.bytes, data);
  }

  // --------------------------------------------------- encryption round trip

  /** Whatever its length, the vector is found by the byte that gives it. */
  lemma AnyVectorOpens(a: Aead, key: CipherKey, index: byte, iv: seq<byte>, header: seq<byte>, text: seq<byte>)
    requires Ideal(a) && |iv| < 256
    ensures Opened(a, key, |header|, header + a.seal(key, iv, header, text) + iv + [|iv| as byte, index]) ==
      Some(header + text)
  {
    var cipher := a.seal(key, iv, header, text);
    var d := header + cipher + iv + [|iv| as byte, index];
    assert d[|d| - 2] == |iv| as byte;
    var end := |d| - |iv| - 2;
    assert d[end..|d| - 2] == iv && d[..|header|] == header && d[|header|..end] == cipher;
  }

  lemma OpenSealed(a: Aead, key: CipherKey, index: byte, iv: seq<byte>, header: seq<byte>, text: seq<byte>)
    requires Ideal(a) && |iv| == IV_LENGTH
    ensures Opened(a, key, |header|, header + Sealed(a, key, index, iv, header, text)) == Some(header + text)
  {
    AnyVectorOpens(a, key, index, iv, header, text);
    assert header + Sealed(a, key, index, iv, header, text) ==
      header + a.seal(key, iv, header, text) + iv + [IV_LENGTH, index];
  }

  /** Which frames the sender refuses: video under AV1, and frames shorter than their
      clear part, which is fixed by kind unless a unit was found; VP9 has none. */
  lemma RefusedExactly(a: Aead, key: CipherKey, index: byte, iv: seq<byte>, f: Format, data: seq<byte>)
    ensures Emitted(a, key, index, iv, f, data) == None <==>
      data != [] && f.kind != Audio && f.codec != Some(Vp9) &&
      (f.codec == Some(Av1) ||
       (|data| < (match f.kind case Key => 10 case Delta => 3 case _ => 0) &&
        (f.codec == Some(Vp8) || NalUnits.ClearBytes(data, Wanted(f.codec)) == None)))
  {
    var n := NalUnits.ClearBytes(data, Wanted(f.codec));
    assert n.Some? ==> n.value <= |data|;
  }

  /** How a frame of a codec without NAL units goes out: so many bytes in the clear, the
      rest sealed with them as associated data, then vector, 12 and key index. */
  lemma FixedLayout(a: Aead, key: CipherKey, index: byte, iv: seq<byte>, f: Format, data: seq<byte>)
    requires data != [] && (f.kind == Audio || f.codec == Some(Vp8) || f.codec == Some(Vp9))
    requires Emitted(a, key, index, iv, f, data).Some?
    ensures var n := if f.kind == Audio then 1 else if f.codec == Some(Vp9) then 0 else
                     match f.kind case Key => 10 case Delta => 3 case _ => 0;
      n <= |data| && Emitted(a, key, index, iv, f, data) ==
        Some(data[..n] + (a.seal(key, iv, data[..n], data[n..]) + iv + [12, index]))
  {
  }

  /** If the receiver splits the frame as the sender did, it gets the frame back. */
  lemma SameSplitRoundTrip(a: Aead, key: CipherKey, index: byte, iv: seq<byte>, f: Format, data: seq<byte>)
    requires Ideal(a) && |iv| == IV_LENGTH
    requires ClearPart(f, data).Clear? && ClearPart(f, data).bytes <= |data|
    requires ClearPart(f, Encrypted(a, key, index, iv, ClearPart(f, data), data)) == ClearPart(f, data)
    ensures Decrypted(a, key, f, Encrypted(a, key, index, iv, ClearPart(f, data), data)) == Some(data)
  {
    var c := ClearPart(f, data);
    var header, text := data[..c.bytes], data[c.bytes..];
    var s := Sealed(a, key, index, iv, header, text);
    var wire := Encrypted(a, key, index, iv, c, data);
    assert wire[..c.bytes] == header;
    assert Readable(c, wire) == header + s by {
      if c.nalu {
        assert wire[c.bytes..] == EmulationPrevention.Escape(s, 0);
        EmulationPrevention.EscapeSound(s);
      }
    }
    OpenSealed(a, key, index, iv, header, text);
    assert header + text == data;
  }

  /** The split is a matter of the codec alone, or a slice unit was found. */
  ghost predicate SplitKnown(f: Format, data: seq<byte>) {
    var c := ClearPart(f, data);
    c.Clear? && c.bytes <= |data| && (f.kind == Audio || f.codec == Some(Vp8) || f.codec == Some(Vp9) || c.nalu)
  }

  lemma SplitsAgree(a: Aead, key: CipherKey, index: byte, iv: seq<byte>, f: Format, data: seq<byte>)
    requires Ideal(a) && |iv| == IV_LENGTH && SplitKnown(f, data)
    ensures ClearPart(f, Encrypted(a, key, index, iv, ClearPart(f, data), data)) == ClearPart(f, data)
  {
    var c := ClearPart(f, data);
    var wire := Encrypted(a, key, index, iv, c, data);
    if c.nalu {
      EmulationPrevention.EscapeGrows(Sealed(a, key, index, iv, data[..c.bytes], data[c.bytes..]), 0);
      assert wire[..c.bytes] == data[..c.bytes];
      NalUnits.HeaderAgrees(data, wire, Wanted(f.codec));
    }
  }

  /** Every audio, VP8, VP9 frame, and every frame in which the sender found a
      slice NAL unit, is decrypted to what it was. */
  lemma FrameRoundTrip(a: Aead, key: CipherKey, index: byte, iv: seq<byte>, f: Format, data: seq<byte>)
    requires Ideal(a) && |iv| == IV_LENGTH && SplitKnown(f, data)
    ensures Decrypted(a, key, f, Encrypted(a, key, index, iv, ClearPart(f, data), data)) == Some(data)
  {
    SplitsAgree(a, key, index, iv, f, data);
    SameSplitRoundTrip(a, key, index, iv, f, data);
  }

  lemma EndOfSealed(a: Aead, key: CipherKey, index: byte, iv: seq<byte>, header: seq<byte>, text: seq<byte>)
    ensures var s := Sealed(a, key, index, iv, header, text);
      |s| >= 2 && s[|s| - 2] == IV_LENGTH && s[|s| - 1] == index
  {
  }

  lemma EndOfConcat(header: seq<byte>, m: seq<byte>)
    requires |m| >= 2
    ensures var w := header + m; w[|w| - 2] == m[|m| - 2] && w[|w| - 1] == m[|m| - 1]
  {
  }

  /** Every encrypted frame, escaped or not, ends in the vector's length and the key
      index, which is what the receiver reads first. */
  lemma KeyIndexSurvives(a: Aead, key: CipherKey, index: byte, iv: seq<byte>, c: Clear, data: seq<byte>)
    requires c.Clear? && c.bytes <= |data|
    ensures var wire := Encrypted(a, key, index, iv, c, data);
      |wire| >= 2 && wire[|wire| - 2] == IV_LENGTH && wire[|wire| - 1] == index
  {
    var s := Sealed(a, key, index, iv, data[..c.bytes], data[c.bytes..]);
    EndOfSealed(a, key, index, iv, data[..c.bytes], data[c.bytes..]);
    EmulationPrevention.LastTwoKept(s, 0);
    EndOfConcat(data[..c.bytes], if c.nalu then EmulationPrevention.Escape(s, 0) else s);
  }

  // --------------------------------------------------- the receive path

  /** What reaches the next stage: a frame, a server-injected frame, or nothing. */
  datatype Outcome = Enqueued(data: seq<byte>) | ServerInjected(data: seq<byte>) | Dropped

  predicate EndsWith(data: seq<byte>, trailer: seq<byte>) {
    trailer != [] && |trailer| <= |data| && data[|data| - |trailer|..] == trailer
  }

  /** The receiver's settings and ring; `injected` recognises a server frame. */
  datatype Receiver = Receiver(
    enabled: bool, hasFrameMetadata: bool, sifTrailer: seq<byte>, injected: seq<byte> -> bool,
    ring: seq<Option<CipherKey>>, failures: seq<nat>, tolerance: int) {

    predicate InvalidAt(i: byte) {
      tolerance >= 0 && i < |failures| && failures[i] > tolerance
    }
  }

  function Stripped(r: Receiver, f: Format, wire: seq<byte>): seq<byte> {
    if r.hasFrameMetadata && f.Video() && wire != [] then PacketTrailer.Parse(wire).data else wire
  }

  /** A frame of a receiver that decrypts, with its packet trailer off. */
  ghost function Unlocked(a: Aead, r: Receiver, f: Format, data: seq<byte>): Outcome
    requires data != []
  {
    var i := data[|data| - 1];
    if r.InvalidAt(i) || i >= |r.ring| || r.ring[i].None? then Dropped
    else
      var d := Decrypted(a, r.ring[i].value, f, data);
      if d.Some? then Enqueued(d.value) else Dropped
  }

  ghost function Decoded(a: Aead, r: Receiver, f: Format, wire: seq<byte>): Outcome {
    var data := Stripped(r, f, wire);
    if !r.enabled || data == [] then Enqueued(data)
    else if EndsWith(data, r.sifTrailer) then
      var inner := data[..|data| - |r.sifTrailer|];
      if r.injected(inner) then ServerInjected(inner) else Dropped
    else Unlocked(a, r, f, data)
  }

  method Strip(r: Receiver, f: Format, wire: seq<byte>) returns (data: seq<byte>)
    ensures data == Stripped(r, f, wire)
  {
    data := wire;
    if r.hasFrameMetadata && f.Video() && data != [] {
      var p := PacketTrailer.ParseTrailer(data);
      if p.metadata.Some? {
        data := p.data;
      }
    }
  }

  method Unlock(a: Aead, r: Receiver, f: Format, data: seq<byte>) returns (o: Outcome)
    requires data != []
    ensures o == Unlocked(a, r, f, data)
  {
    var i := data[|data| - 1];
    if r.InvalidAt(i) || i >= |r.ring| || r.ring[i].None? {
      return Dropped;
    }
    var d := Decrypt(a, r.ring[i].value, f, data);
    return if d.Some? then Enqueued(d.value) else Dropped;
  }

  /** `decodeFunction`, without the ratchet retries. */
  method Decode(a: Aead, r: Receiver, f: Format, wire: seq<byte>) returns (o: Outcome)
    ensures o == Decoded(a, r, f, wire)
  {
    var data := Strip(r, f, wire);
    if !r.enabled || data == [] {
      return Enqueued(data);
    }
    if EndsWith(data, r.sifTrailer) {
      data := data[..|data| - |r.sifTrailer|];
      if r.injected(data) {
        return ServerInjected(data);
      }
      return Dropped;
    }
    o := Unlock(a, r, f, data);
  }
}
