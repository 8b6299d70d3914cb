/**
  A frame from the sender's transform to the receiver's: encryption and trailer on
  one side, trailer, server-injected frames, key ring and decryption on the other.
*/
module FramePipeline {
  import opened Wrappers
  import opened Bytes
  import opened FrameCryptor
  import FrameFallback
  import FrameMark
  import PacketTrailer

  /** What the sender hands on: trailer fields go with video frames, and with no empty
      frame. None when its transform rejects. */
  ghost function Sent(a: Aead, key: CipherKey, index: byte, iv: seq<byte>, f: Format, data: seq<byte>, t: nat, n: nat)
    : Option<seq<byte>>
  {
    var e := Emitted(a, key, index, iv, f, data);
    if e.Some? && f.Video() && data != [] then Some(PacketTrailer.Trailed(e.value, t, n)) else e
  }

  /** The trailer's fields are in range, and the receiver looks for trailers if any are sent. */
  predicate Understood(r: Receiver, f: Format, t: nat, n: nat) {
    t < TWO32 * TWO32 && n < TWO32 && (f.Video() && (t != 0 || n != 0) ==> r.hasFrameMetadata)
  }

  /** The index has not failed more often than is tolerated; a negative tolerance
      tolerates everything. */
  predicate Tolerated(r: Receiver, index: byte) {
    r.tolerance < 0 || index >= |r.failures| || r.failures[index] <= r.tolerance
  }

  /** The receiver decrypts, tolerates the index, has the key there, and understands the trailer. */
  predicate Ready(r: Receiver, f: Format, key: CipherKey, index: byte, t: nat, n: nat) {
    r.enabled && Tolerated(r, index) && index < |r.ring| && r.ring[index] == Some(key) && Understood(r, f, t, n)
  }

  /** The receiver's split is the sender's, whatever the cipher text. */
  ghost predicate SafeSplit(f: Format, data: seq<byte>) {
    SplitKnown(f, data) || (FrameFallback.Fallback(f, data) && FrameFallback.Guarded(data[..DefaultClear(f.kind)]))
  }

  /** An encrypted frame never looks as if it carried a trailer: the last byte but one
      is the vector's length, which is no letter of the mark. */
  lemma NoFalseTrailer(a: Aead, key: CipherKey, index: byte, iv: seq<byte>, c: Clear, data: seq<byte>)
    requires c.Clear? && c.bytes <= |data|
    ensures var e := Encrypted(a, key, index, iv, c, data); PacketTrailer.Parse(e) == PacketTrailer.Parsed(e, None)
  {
    var e := Encrypted(a, key, index, iv, c, data);
    KeyIndexSurvives(a, key, index, iv, c, data);
    assert |e| >= 5 ==> e[|e| - 4..][2] == e[|e| - 2] != PacketTrailer.MARK[2];
  }

  /** The receiver takes off the trailer that was put on, and no more. */
  lemma TrailerTakenOff(a: Aead, key: CipherKey, index: byte, iv: seq<byte>, r: Receiver, f: Format, data: seq<byte>,
          t: nat, n: nat)
    requires data != [] && Understood(r, f, t, n) && Emitted(a, key, index, iv, f, data).Some?
    ensures Stripped(r, f, Sent(a, key, index, iv, f, data, t, n).value) == Emitted(a, key, index, iv, f, data).value
  {
    var e := Emitted(a, key, index, iv, f, data).value;
    NoFalseTrailer(a, key, index, iv, ClearPart(f, data), data);
    if f.Video() && (t != 0 || n != 0) {
      PacketTrailer.TrailerRoundTrip(e, t, n);
      assert |PacketTrailer.Trailed(e, t, n)| > 0;
    }
  }

  /** What is left to do once the trailer is off. */
  lemma Opens(a: Aead, r: Receiver, f: Format, wire: seq<byte>, e: seq<byte>, key: CipherKey, index: byte,
          data: seq<byte>)
    requires r.enabled && Tolerated(r, index) && index < |r.ring| && r.ring[index] == Some(key)
    requires Stripped(r, f, wire) == e && e != [] && e[|e| - 1] == index && !EndsWith(e, r.sifTrailer)
    requires Decrypted(a, key, f, e) == Some(data)
    ensures Decoded(a, r, f, wire) == Enqueued(data)
  {
  }

  lemma SafeSplitOpens(a: Aead, key: CipherKey, index: byte, iv: seq<byte>, f: Format, data: seq<byte>)
    requires Ideal(a) && |iv| == IV_LENGTH && SafeSplit(f, data)
    ensures Decrypted(a, key, f, Encrypted(a, key, index, iv, ClearPart(f, data), data)) == Some(data)
  {
    if SplitKnown(f, data) {
      FrameRoundTrip(a, key, index, iv, f, data);
    } else {
      FrameFallback.GuardedArrives(a, key, index, iv, f, data);
    }
  }

  lemma EmittedIs(a: Aead, key: CipherKey, index: byte, iv: seq<byte>, f: Format, data: seq<byte>)
    requires data != [] && ClearPart(f, data).Clear? && ClearPart(f, data).bytes <= |data|
    ensures Emitted(a, key, index, iv, f, data) == Some(Encrypted(a, key, index, iv, ClearPart(f, data), data))
  {
  }

  lemma SafeSplitSent(a: Aead, key: CipherKey, index: byte, iv: seq<byte>, f: Format, data: seq<byte>, t: nat, n: nat)
    requires data != [] && SafeSplit(f, data)
    ensures Emitted(a, key, index, iv, f, data) == Some(Encrypted(a, key, index, iv, ClearPart(f, data), data))
    ensures Sent(a, key, index, iv, f, data, t, n).Some?
  {
  }

  lemma PipelineOpens(a: Aead, key: CipherKey, index: byte, iv: seq<byte>, r: Receiver, f: Format, data: seq<byte>,
          wire: seq<byte>)
    requires Ideal(a) && |iv| == IV_LENGTH && r.enabled && Tolerated(r, index) && index < |r.ring|
    requires r.ring[index] == Some(key)
    requires data != [] && SafeSplit(f, data) && !FrameMark.Possible(r.sifTrailer, index, ClearPart(f, data), data)
    requires Stripped(r, f, wire) == Encrypted(a, key, index, iv, ClearPart(f, data), data)
    ensures Decoded(a, r, f, wire) == Enqueued(data)
  {
    var c := ClearPart(f, data);
    if EndsWith(Encrypted(a, key, index, iv, c, data), r.sifTrailer) {
      FrameMark.Met(a, key, index, iv, c, data, r.sifTrailer);
    }
    KeyIndexSurvives(a, key, index, iv, c, data);
    SafeSplitOpens(a, key, index, iv, f, data);
    Opens(a, r, f, wire, Encrypted(a, key, index, iv, c, data), key, index, data);
  }

  /** Through layout, emulation prevention, key index and trailer the receiver passes
      on the original frame. */
  lemma PipelineRoundTrip(a: Aead, key: CipherKey, index: byte, iv: seq<byte>, r: Receiver, f: Format, data: seq<byte>,
          t: nat, n: nat)
    requires Ideal(a) && |iv| == IV_LENGTH && Ready(r, f, key, index, t, n)
    requires data != [] ==> SafeSplit(f, data) && !FrameMark.Possible(r.sifTrailer, index, ClearPart(f, data), data)
    ensures var w := Sent(a, key, index, iv, f, data, t, n);
      w.Some? && Decoded(a, r, f, w.value) == Enqueued(data)
  {
    if data != [] {
      SafeSplitSent(a, key, index, iv, f, data, t, n);
      TrailerTakenOff(a, key, index, iv, r, f, data, t, n);
      PipelineOpens(a, key, index, iv, r, f, data, Sent(a, key, index, iv, f, data, t, n).value);
    }
  }

  // ------------------------------------------------------- and not otherwise

  /** The frame comes out as it went in, for every ideal cipher and vector. */
  ghost predicate Delivered(r: Receiver, f: Format, key: CipherKey, index: byte, data: seq<byte>, t: nat, n: nat) {
    forall a: Aead, iv: seq<byte> :: Ideal(a) && |iv| == IV_LENGTH ==>
      var w := Sent(a, key, index, iv, f, data, t, n); w.Some? && Decoded(a, r, f, w.value) == Enqueued(data)
  }

  /** One cipher and vector under which the receiver takes the frame for an injected
      one, or cannot open it. */
  lemma OneLoss(a: Aead, iv: seq<byte>, r: Receiver, f: Format, key: CipherKey, index: byte, data: seq<byte>, t: nat,
          n: nat)
    requires data != [] && Ready(r, f, key, index, t, n) && Ideal(a) && |iv| == IV_LENGTH
    requires Emitted(a, key, index, iv, f, data).Some?
    requires var e := Emitted(a, key, index, iv, f, data).value;
      EndsWith(e, r.sifTrailer) || Decrypted(a, key, f, e) == None
    ensures !Delivered(r, f, key, index, data, t, n)
  {
    TrailerTakenOff(a, key, index, iv, r, f, data, t, n);
    KeyIndexSurvives(a, key, index, iv, ClearPart(f, data), data);
    assert !Decoded(a, r, f, Sent(a, key, index, iv, f, data, t, n).value).Enqueued?;
  }

  lemma CollisionLoses(r: Receiver, f: Format, key: CipherKey, index: byte, data: seq<byte>, t: nat, n: nat)
    requires data != [] && Ready(r, f, key, index, t, n) && ClearPart(f, data).Clear?
    requires ClearPart(f, data).bytes <= |data|
    requires FrameMark.Possible(r.sifTrailer, index, ClearPart(f, data), data)
    ensures !Delivered(r, f, key, index, data, t, n)
  {
    var a, iv := FrameMark.Spelled(key, index, ClearPart(f, data), data, r.sifTrailer);
    EmittedIs(a, key, index, iv, f, data);
    OneLoss(a, iv, r, f, key, index, data, t, n);
  }

  lemma UnguardedLoses(r: Receiver, f: Format, key: CipherKey, index: byte, data: seq<byte>, t: nat, n: nat)
    requires data != [] && Ready(r, f, key, index, t, n)
    requires FrameFallback.Fallback(f, data) && !FrameFallback.Guarded(data[..DefaultClear(f.kind)])
    ensures !Delivered(r, f, key, index, data, t, n)
  {
    var slice := FrameFallback.SliceByte(Wanted(f.codec));
    var a, iv := FrameFallback.Decoy(DefaultClear(f.kind), slice), seq(12, _ => 0 as byte);
    FrameFallback.DecoyIsIdeal(DefaultClear(f.kind), slice);
    FrameFallback.UnguardedLost(key, index, iv, f, data);
    OneLoss(a, iv, r, f, key, index, data, t, n);
  }

  lemma RejectedLoses(r: Receiver, f: Format, key: CipherKey, index: byte, data: seq<byte>, t: nat, n: nat)
    requires Emitted(FrameMark.Chosen([], seq(16, _ => 0 as byte)), key, index, seq(12, _ => 0 as byte), f, data) ==
      None
    ensures !Delivered(r, f, key, index, data, t, n)
  {
    var a, iv := FrameMark.Chosen([], seq(16, _ => 0 as byte)), seq(12, _ => 0 as byte);
    FrameMark.ChosenIsIdeal([], seq(16, _ => 0 as byte));
    assert Ideal(a) && |iv| == IV_LENGTH && Sent(a, key, index, iv, f, data, t, n) == None;
  }

  /** Of all frames exactly those are delivered for every cipher and vector that are
      empty, or whose split is safe and that cannot end in the mark of server-injected
      frames. */
  lemma DeliveredExactly(r: Receiver, f: Format, key: CipherKey, index: byte, data: seq<byte>, t: nat, n: nat)
    requires Ready(r, f, key, index, t, n)
    ensures Delivered(r, f, key, index, data, t, n) <==>
      data == [] || (SafeSplit(f, data) && !FrameMark.Possible(r.sifTrailer, index, ClearPart(f, data), data))
  {
    var c := ClearPart(f, data);
    if data == [] || (SafeSplit(f, data) && !FrameMark.Possible(r.sifTrailer, index, c, data)) {
      forall a: Aead, iv: seq<byte> | Ideal(a) && |iv| == IV_LENGTH
        ensures var w := Sent(a, key, index, iv, f, data, t, n); w.Some? && Decoded(a, r, f, w.value) == Enqueued(data)
      {
        PipelineRoundTrip(a, key, index, iv, r, f, data, t, n);
      }
    } else if c.Unsupported? || c.bytes > |data| {
      RejectedLoses(r, f, key, index, data, t, n);
    } else if FrameMark.Possible(r.sifTrailer, index, c, data) {
      CollisionLoses(r, f, key, index, data, t, n);
    } else {
      UnguardedLoses(r, f, key, index, data, t, n);
    }
  }

  // -------------------------------------------- every outcome of a sent frame

  /** A frame ends in the mark exactly when it is some other frame with the mark behind it. */
  lemma EndsExactly(data: seq<byte>, mark: seq<byte>)
    ensures EndsWith(data, mark) <==> mark != [] && exists inner: seq<byte> :: data == inner + mark
  {
    if EndsWith(data, mark) {
      assert data == data[..|data| - |mark|] + mark;
    } else if mark != [] {
      forall inner: seq<byte> ensures data != inner + mark {
        assert (inner + mark)[|inner|..] == mark;
      }
    }
  }

  /** The index has failed too often, there is no key at it, or the key there does not
      open the frame. */
  ghost predicate Refused(a: Aead, r: Receiver, f: Format, e: seq<byte>, index: byte) {
    || (index < |r.failures| && 0 <= r.tolerance < r.failures[index])
    || index >= |r.ring|
    || r.ring[index] == None
    || Decrypted(a, r.ring[index].value, f, e) == None
  }

  ghost predicate OpenedOrDropped(a: Aead, r: Receiver, f: Format, e: seq<byte>, index: byte, o: Outcome) {
    && (o == Dropped <==> Refused(a, r, f, e, index))
    && (o != Dropped ==> o == Enqueued(Decrypted(a, r.ring[index].value, f, e).value))
  }

  lemma UnlockedExactly(a: Aead, r: Receiver, f: Format, wire: seq<byte>, e: seq<byte>)
    requires r.enabled && Stripped(r, f, wire) == e && e != [] && !EndsWith(e, r.sifTrailer)
    ensures OpenedOrDropped(a, r, f, e, e[|e| - 1], Decoded(a, r, f, wire))
  {
  }

  /** An encrypted frame that does not end in the mark is dropped exactly when it is
      refused under its key index; otherwise what the key there opens is passed on. */
  lemma DroppedExactly(a: Aead, key: CipherKey, index: byte, iv: seq<byte>, r: Receiver, f: Format, data: seq<byte>,
          t: nat, n: nat)
    requires data != [] && r.enabled && Understood(r, f, t, n) && Emitted(a, key, index, iv, f, data).Some?
    requires r.sifTrailer == [] ||
      forall inner: seq<byte> :: Emitted(a, key, index, iv, f, data).value != inner + r.sifTrailer
    ensures OpenedOrDropped(a, r, f, Emitted(a, key, index, iv, f, data).value, index,
                            Decoded(a, r, f, Sent(a, key, index, iv, f, data, t, n).value))
  {
    var e := Emitted(a, key, index, iv, f, data).value;
    TrailerTakenOff(a, key, index, iv, r, f, data, t, n);
    KeyIndexSurvives(a, key, index, iv, ClearPart(f, data), data);
    EndsExactly(e, r.sifTrailer);
    UnlockedExactly(a, r, f, Sent(a, key, index, iv, f, data, t, n).value, e);
  }

  /** A frame behind which the server has put the mark comes out without it as
      injected when it is recognised, and is dropped otherwise, whatever the ring holds. */
  lemma InjectedExactly(a: Aead, r: Receiver, f: Format, inner: seq<byte>)
    requires r.enabled && r.sifTrailer != []
    requires r.hasFrameMetadata && f.Video() ==> PacketTrailer.Parse(inner + r.sifTrailer).metadata == None
    ensures Decoded(a, r, f, inner + r.sifTrailer) == if r.injected(inner) then ServerInjected(inner) else Dropped
  {
    var wire := inner + r.sifTrailer;
    EndsExactly(wire, r.sifTrailer);
    assert wire[..|wire| - |r.sifTrailer|] == inner;
  }

  /** A receiver that does not decrypt passes on a frame that was sent in the clear with a
      trailer: without the trailer if it looks for one, which it does in no audio frame. */
  lemma ClearPasses(a: Aead, r: Receiver, f: Format, data: seq<byte>, t: nat, n: nat)
    requires !r.enabled && data != [] && t < TWO32 * TWO32 && n < TWO32 && (t != 0 || n != 0)
    ensures var wire := PacketTrailer.Trailed(data, t, n);
      Decoded(a, r, f, wire) == Enqueued(if r.hasFrameMetadata && f.kind != Audio then data else wire)
  {
    PacketTrailer.TrailerRoundTrip(data, t, n);
  }
}
