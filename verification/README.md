# Verified models of the messenger's hard parts

A Dafny 4.11 project that models the parts of the client whose correctness is not visible from
one function, and proves what they keep over all inputs, all runs and all interleavings.
`dafny verify dfyconfig.toml` checks everything.

* **Group keys** (`GroupKeyProtocol`, `GroupKeyClient`, `GroupKeyFaults`). A state machine in which
  every `await` of the owner's operations is a point where anything else may run: joins, departures,
  other operations, other sessions of the owner, failed requests, lost replies and requests that
  arrive after their client has given up on them. The rotation itself, with its compare-and-swap
  claim of the epoch, is modelled as the code has it. Beside it, the client's functions as methods
  on a server object, proved equal to one uninterrupted run of the protocol, and convergence; what
  failures, lost replies and late requests leave behind, and that a reconcile puts it right.
* **Encrypted frames** (`NalUnits`, `NalSlices`, `EmulationPrevention`, `PacketTrailer`, `FrameIv`,
  `FrameCryptor`, `FrameFallback`, `FrameMark`, `FramePipeline`, `Varint`, `Decimal64`, over
  `Bytes`). The byte-level printers, scanners and parsers of the worker bundle, as loops proved
  against specification functions, and what the two ends agree on. The cipher is ideal: opening what
  was sealed with the same key, vector and associated data gives the text back.
* **Message slots** (`PendingPull`, `PullOutcome`, `MessageStore`, `MessageHistory`, `MessageDelivery`,
  `MessageOutcome`). The coalescing pull with its retry counter, history loads and delivery-sync
  pulls as interleaved steps, the message list and the message cache.
* **Device linking** (`DeviceLink`, `DeviceLinkPanels`, `LinkCompletes`, `LinkOverlap`). Both panels
  and the relay as one state machine over a linking session, with any relay and with an honest one,
  and the modal with two of its flows under way at once; public-key encryption is ideal and the
  digits are any function of rendezvous id and key.
* **Two numeric and text cores** (`NoiseGate`, `EnvFile`). The gain envelope over exact reals with
  its loops over sample arrays, and the `.env` editor against its two readers.

Decisions that shape the models:

* Bit operations are written in arithmetic. `a | b << n` with `a` below `2^n` is `a + b * 2^n`,
  `x & 127` is `x % 128`, `~x` in 32 bits is `2^32 - 1 - x`; 32-bit halves are unsigned words.
* In `Decimal64` every integer result passes through `Exact`, whose precondition is the range in
  which a double holds integers exactly, so the proof that no intermediate value leaves it is part
  of every method. The two quotients that are no integers are rounded by any monotone function that
  is right at integers and too large by no more than one part in 2^53 (`FloorRounded`), asked for
  only where quotients occur.
* In `PendingPull`, setting up another chat forgets what was owed to the one before; setting up the
  same chat again does not.
* I/O, clocks, randomness and the network are parameters or steps: answers of servers, outcomes of
  decryption, levels in dBFS, fresh keys.

Where the code and its documentation part, the model follows the code:

* The chat detail is read in two queries, epoch first, roster second. A join between them shows the
  joiner beside the epoch from before the join, and a reconcile then hands over a pre-join key,
  which the comments on backward secrecy rule out (`JoinInsideFetchLeaks`). A delivery overtaken by
  a leave and rejoin does the same (`RejoinOvertakesDelivery`). A membership that had begun by the
  epoch the fetch returned is safe on every run (`SealedIfBegun`), and unless a rotation ended inside
  the fetch no other is (`SealedExactly`).
* An owner whose own roster key contradicts a trust pin never gets its own row rewritten, so every
  reconcile rotates again (`DistrustedOwnerChurns`); the comments call reconciling idempotent.
* A frame without a recognised slice falls back to a fixed clear length on both ends, but the
  receiver scans cipher text: a start code that only the cipher text made loses the frame. Which
  frames that can happen to, the clear header decides (`FrameFallback.FallbackExactly`).
* An encrypted frame can happen to end in the mark of server-injected frames, and is then not
  decrypted. For which marks, key indices and frames that is so, escaped or not,
  `FrameMark.Possible` says and `FramePipeline.DeliveredExactly` proves. A metadata trailer it can
  never seem to carry (`FramePipeline.NoFalseTrailer`).
* The modal promises to send under the digits it showed. A typed code still resolving when Show QR is
  pressed overwrites the refs of the new flow and is overwritten by it, and the promise fails
  (`LinkOverlap.OverlapHappens`); on every run without that overlap it holds
  (`LinkOverlap.ConfirmedUnlessOverlap`).
* A pull that finds another chat open stops, with the request to go round again unserved even when
  that request came for the chat now open (`EventAfterSwitchLost`); a rejected fetch drops it too
  (`EventAtRejectionLost`), and an event that finds no keys or chat context is dropped.
  `StrandsExactly` lists every such step.
* The comments say that a key-change notice surfaces over a readable text. By replacement of the
  list it does, by append it does not (`AppendShows`).
* The cache is said to keep readable text. Failed text never gets in, but an empty text does
  (`CacheLosesExactly`, `SingleWriteLosesExactly`).
* A load is cancelled when the chat changes, but `cancelled` is not looked at after the cache write:
  cancelled there, and only there, it fills the screen with its own chat's rows, whatever chat is
  open (`CancelledExactly`, `StaleLoadShown`).
* A row that decrypted is acknowledged whether or not it could be kept. When it is lost
  `PullLosesExactly` and `LoadLosesExactly` say, and `AckedAndGone` is such a run.
* A realtime row looked at while its chat is open is appended without another look after its cache
  write (`ShownElsewhereExactly`, `ShownElsewhere`).
* `getKey` and the editor do not agree on where a line ends (`GetKeyExactly`, `OtherKeyExactly`), and
  the editor takes one CR off a line each time (`IdempotentExactly`).

## Model

| member | source | states |
|---|---|---|
| GroupKeyProtocol.RunKeeps | client/src/hooks/use-group-key-distribution.ts:20-215 | Every interleaving of joins, departures, deliveries, reconciles, rotations, failures, lost replies and late requests, from any number of owner sessions, keeps the protocol's invariant. |
| GroupKeyProtocol.OneKeyPerEpoch | client/src/lib/group-key-rotation.ts:175-233 | In every reachable state a stored blob's stamp is the epoch its key was claimed for, so two members share a stamp exactly when they share the key: rotations never split the group under one epoch. |
| GroupKeyProtocol.AccessFollowsMembership | client/src/lib/group-key-rotation.ts:185-221 | Every write goes to a member with an ECDH key that passes the trust check; a rotation, and a hand-out read at the key's epoch, writes only members of that epoch's roster. |
| GroupKeyProtocol.DepartedGetNoNewKey | client/src/hooks/use-group-key-distribution.ts:227-229 | Whoever is off the roster from some epoch on is never written a key of that epoch or later, on any run. |
| GroupKeyProtocol.SealedIfBegun | client/src/hooks/use-group-key-distribution.ts:54-66 | On every run, a write that lands on a membership begun by the epoch its fetch returned carries a post-join key: the guards against a key older than that epoch are what this rests on. |
| GroupKeyProtocol.SealedExactly | client/src/hooks/use-group-key-distribution.ts:161-168 | For a rotation, and for a hand-out of a key of the fetched epoch, the write carries a post-join key if and only if the membership it lands on had begun by that epoch. |
| GroupKeyProtocol.NewcomerSealed | client/src/hooks/use-group-key-distribution.ts:161-168 | A member that never belonged before receives only keys of epochs from its join on, if the epoch did not move between the two queries of the fetch. |
| GroupKeyProtocol.RotationsExclude | client/src/hooks/use-group-key-distribution.ts:112-136 | In every reachable state a session has at most one rotation running, and each of the two locks is held exactly while an operation of the session is inside it, whatever way operations end. |
| GroupKeyProtocol.JoinInsideFetchLeaks | server/src/routes/chats.ts:2122-2163 | A run in which a membership begun between the two reads of the chat detail is handed a pre-join key. |
| GroupKeyProtocol.RejoinOvertakesDelivery | client/src/hooks/use-group-key-distribution.ts:68-96 | A run in which a hand-out under way, whose two reads agreed, lands on a membership begun after them, with a key from before. |
| GroupKeyProtocol.RotationStartsFresh | client/src/lib/group-key-rotation.ts:135-175 | A starting rotation holds a key that is in no row, was claimed for no epoch and is in no other rotation, and addresses exactly the eligible members. |
| GroupKeyProtocol.ClaimWins | server/src/routes/chats.ts:2001-2022 | Once one rotation has claimed the epoch, every other one off the same epoch leaves at its next upload without writing. |
| GroupKeyProtocol.JoinKeeps | server/src/routes/chats.ts:838-861 | A newcomer begins without a key, at an epoch later than that of every key there is. |
| GroupKeyProtocol.LeaveKeeps | server/src/routes/chats.ts:1917-1937 | Who departs is off roster and rows, and every key there is belongs to an epoch before the chat's new one. |
| GroupKeyProtocol.LostReplyKeeps | client/src/lib/group-key-rotation.ts:200-232 | A write that took effect although its reply was lost leaves the invariant standing. |
| GroupKeyProtocol.GiveUpKeeps | client/src/lib/api/chats.ts:551-562 | A wrapped-key PUT whose client has given up on it stays under way, to land or to claim the epoch at any later time, while a rotation goes on with the next member; the invariant stands. |
| GroupKeyClient.RotationSettles | client/src/lib/group-key-rotation.ts:135-248 | A quiet rotation puts one key, new to every row and every epoch and stamped with the next epoch, in the row of every trusted member with an ECDH key, and changes no other row. |
| GroupKeyClient.HandOutSettles | client/src/hooks/use-group-key-distribution.ts:170-214 | When the owner is current, a quiet reconcile leaves every trusted member with an ECDH key at the owner's epoch and touches nobody else. |
| GroupKeyClient.SettledStays | client/src/hooks/use-group-key-distribution.ts:138-146 | A reconcile of a settled group changes nothing. |
| GroupKeyClient.ReconcileConverges | client/src/hooks/use-group-key-distribution.ts:147-215 | One quiet reconcile of an owner with a key settles the group if and only if the owner's key is current or the owner passes its own trust check; members without a usable key are never written, and a second reconcile changes nothing. |
| GroupKeyClient.DistrustedOwnerChurns | client/src/hooks/use-group-key-distribution.ts:161-168 | An owner behind the epoch that distrusts its own roster key, with anyone else to write to, retires one more epoch on every reconcile and stays behind. |
| GroupKeyClient.ReconcileRuns | client/src/hooks/use-group-key-distribution.ts:147-215 | From any state without another operation of the session, some run of the protocol ends in exactly what the quiet reconcile computes. |
| GroupKeyClient.RotationRuns | client/src/lib/group-key-rotation.ts:135-249 | The same for a rotation under either lock. |
| GroupKeyClient.DeliveryRuns | client/src/hooks/use-group-key-distribution.ts:26-96 | From any state with the session in neither lock, a delivery that nothing disturbs ends, whatever member it was started for: a trusted member without a blob is given the owner's key, and no other row changes, if that key is current; the chat is rekeyed if it is behind; every other target leaves the record as it was. |
| GroupKeyClient.DeliveryKeys | client/src/hooks/use-group-key-distribution.ts:54-96 | So such a member is keyed, with a key of the chat's epoch, whether the owner was current or behind. |
| GroupKeyFaults.AnyFaultHeals | client/src/hooks/use-group-key-distribution.ts:147-215 | In every reachable state, whatever failed, was lost or is still under way: a reconcile that from here on runs alone settles the group if and only if the owner's key is current or the owner passes its own trust check. |
| GroupKeyFaults.RotationWithFailures | client/src/lib/group-key-rotation.ts:175-235 | Whichever uploads of a rotation fail, it goes through to its end and releases its lock: exactly those it reached have the new key, and the epoch has moved, by one, exactly when it reached anyone. |
| GroupKeyFaults.GonePassedOver | client/src/lib/group-key-rotation.ts:185-235 | A rotation that has its claim passes over members who have left since and keys everyone else it addresses. |
| GroupKeyFaults.LostClaim | client/src/lib/group-key-rotation.ts:200-232 | A rotation whose claim took effect but whose reply was lost has keyed one member and moved the epoch, is refused at the next member, and leaves with its lock released. |
| GroupKeyFaults.FailedClaim | server/src/routes/chats.ts:2014-2033 | The same if the epoch had moved when the row could not be written: no row has changed. |
| GroupKeyFaults.LateClaim | client/src/lib/api/chats.ts:551-562 | A claim its client no longer waits for can still move the epoch and write its row; the rotation, gone on without it, is refused at the next member and leaves. |
| GroupKeyFaults.LateUpload | client/src/lib/api/chats.ts:551-562 | A rotation that gives up waiting for an upload goes on with the next member, and the row is written when the request arrives after all. |
| GroupKeyFaults.HandOutBreaksOff | client/src/hooks/use-group-key-distribution.ts:175-214 | A hand-out ends at the first member that is gone and at the first request that fails or whose reply is lost: exactly those before it have been written, and of a lost reply that row as well. |
| GroupKeyFaults.GivenUpHandOut | client/src/lib/api/chats.ts:551-562 | A hand-out that gives up waiting is over, but for the one row its request may still write. |
| GroupKeyFaults.GuardedRotation | client/src/hooks/use-group-key-distribution.ts:120-136 | The guarded rotation, undisturbed, changes nothing if the owner's stored key is of the chat's epoch, if there has never been one at epoch 0, or without an ECDH key; otherwise it rekeys everyone who is trusted. |
| GroupKeyFaults.LockedDoesNothing | client/src/lib/group-key-rotation.ts:122-130 | While the session holds either lock another rotation of it ends without a trace. |
| GroupKeyClient.Session.RunRotation | client/src/lib/group-key-rotation.ts:135-249 | The loop over the roster, claiming at its first upload, leaves the server as the quiet rotation says; it reports a rotation exactly when the epoch moved. |
| GroupKeyClient.Session.RotateGroupKey | client/src/lib/group-key-rotation.ts:104-130 | Does nothing while the chat is locked, rotates otherwise, and leaves the lock as it found it. |
| GroupKeyClient.Session.RotateIfStale | client/src/hooks/use-group-key-distribution.ts:120-136 | With no request failing, rotates exactly when the owner's stored stamp is behind, under a lock released on every exit. |
| GroupKeyClient.Session.Reconcile | client/src/hooks/use-group-key-distribution.ts:147-215 | With the chat unlocked, the reconcile leaves the server as the quiet reconcile says, returns true exactly when the chat changed, and leaves the locks as it found them. |
| GroupKeyClient.Server.Put | server/src/routes/chats.ts:1958-2043 | The wrapped-key PUT: not a member, stale claim, claim with bump, or plain write. |
| EmulationPrevention.EscapeSound | client/public/livekit-e2ee-worker.js:1 | For every byte string: unescaping the escaped gives it back, the escaped holds no 00 00 00, 00 00 01 or 00 00 02 (section 7.4.1 of ITU-T H.264), ends in the same byte, and the receiver's scan says yes exactly when escaping changed something. |
| EmulationPrevention.RoundTripFrom | client/public/livekit-e2ee-worker.js:1 | The round trip in mid-stream, with zeros already sent. |
| EmulationPrevention.NeedsExactly | client/public/livekit-e2ee-worker.js:1 | The scan, which stops one position short, is true exactly when a byte was inserted. |
| EmulationPrevention.SpellableExactly | client/public/livekit-e2ee-worker.js:1 | The byte strings escaping can emit are exactly those in which two zeros are followed by a byte above 3 or by a 3 and a byte up to 3. |
| EmulationPrevention.EscapeBytes | client/public/livekit-e2ee-worker.js:1 | The sender's counter loop computes the escaped string. |
| EmulationPrevention.UnescapeBytes | client/public/livekit-e2ee-worker.js:1 | The receiver's loop with its jump of three computes the unescaped string. |
| EmulationPrevention.ScanForMark | client/public/livekit-e2ee-worker.js:1 | The receiver's test finds a mark that has a byte behind it if and only if there is one. |
| EmulationPrevention.ReadBack | client/public/livekit-e2ee-worker.js:1 | Scan and unescape together give back whatever was escaped. |
| NalUnits.ScanUnits | client/public/livekit-e2ee-worker.js:1 | The start-code scanner, with its look-ahead, its trimming of zeros and its refusal of a non-zero lead-in, computes the list of unit starts. |
| NalUnits.FindClearBytes | client/public/livekit-e2ee-worker.js:1 | The clear header ends two bytes into the first slice unit of the wanted or detected codec. |
| NalUnits.DetectCodec | client/public/livekit-e2ee-worker.js:1 | Detection settles on the codec of the first slice unit of either kind, or on none if there is none. |
| NalSlices.ClearExactly | client/public/livekit-e2ee-worker.js:1 | The clear header of a frame is n bytes long if and only if only zeros lead in to the first start code, the byte two before the end begins a slice unit of the wanted codec right behind a start code with at least three more bytes to follow, and no earlier start code announces one. |
| NalSlices.SliceTypes | client/public/livekit-e2ee-worker.js:1 | Slice units are those of types 1 and 5 in the low five bits of an H.264 header byte (section 7.3.1 of ITU-T H.264), and of types 0 to 9 and 16 to 21 in the six bits behind the first of an H.265 one (section 7.3.1.2 of ITU-T H.265). |
| NalUnits.HeaderAgrees | client/public/livekit-e2ee-worker.js:1 | Any frame at least as long that agrees up to the clear length has the same clear length: the receiver, who scans cipher text, splits where the sender did. |
| FrameCryptor.GetUnencryptedBytes | client/public/livekit-e2ee-worker.js:1 | The clear length by kind and codec, with AV1 refused and the fixed lengths as fallback. |
| FrameCryptor.Encode | client/public/livekit-e2ee-worker.js:1 | The sent frame is clear header and sealed part, vector, vector length and key index, escaped when a unit was found; an empty frame passes as it is, too short a one is refused. |
| FrameCryptor.RefusedExactly | client/public/livekit-e2ee-worker.js:1 | The sender refuses exactly video under AV1 and frames shorter than their clear part: 10 bytes of a key frame, 3 of a delta frame, none under VP9 or where a slice unit was found, and no audio frame that has a byte. |
| FrameCryptor.FixedLayout | client/public/livekit-e2ee-worker.js:1 | Audio, VP8 and VP9 frames go out as so many clear bytes, the rest sealed with them as associated data, vector, 12 and key index. |
| FrameCryptor.AnyVectorOpens | client/public/livekit-e2ee-worker.js:1 | The receiver opens a frame with a vector of any length below 256, which it finds by its length byte. |
| FrameCryptor.Decrypt | client/public/livekit-e2ee-worker.js:1 | One decryption attempt on the frame with emulation prevention taken out, or nothing for each malformed layout. |
| FrameCryptor.Decode | client/public/livekit-e2ee-worker.js:1 | The receive path as a method: trailer off, server-injected frames, key-ring checks, decryption. What comes of a frame is in the FramePipeline rows. |
| FrameCryptor.SplitsAgree | client/public/livekit-e2ee-worker.js:1 | For audio, VP8, VP9 and every frame with a slice unit, sender and receiver compute the same split although the receiver sees the encrypted frame. |
| FrameCryptor.FrameRoundTrip | client/public/livekit-e2ee-worker.js:1 | All such frames are decrypted to what they were. |
| FrameCryptor.KeyIndexSurvives | client/public/livekit-e2ee-worker.js:1 | Every encrypted frame, escaped or not, ends in the vector length and the key index. |
| FrameFallback.FallbackExactly | client/public/livekit-e2ee-worker.js:1 | A frame without a slice is decrypted to itself under every ideal cipher, key and vector if and only if its clear header has a non-zero byte and the first of these ends no start code; for every other such frame there is a cipher that loses it. |
| FrameFallback.ArrivesExactly | client/public/livekit-e2ee-worker.js:1 | Of all frames with bytes in them exactly those arrive under every cipher whose split is known or whose fallback header is so guarded. |
| NalUnits.LeadInRefused | client/public/livekit-e2ee-worker.js:1 | A first non-zero byte that can end no start code makes the scanner refuse the frame, whatever follows. |
| NalUnits.ScannedPast | client/public/livekit-e2ee-worker.js:1 | A header of zeros, or one whose first non-zero byte ends a start code, lets the scanner go on and find a unit in what follows. |
| FramePipeline.NoFalseTrailer | client/public/livekit-e2ee-worker.js:1 | No encrypted frame is ever taken to carry a metadata trailer, whatever key index and cipher text. |
| FramePipeline.PipelineRoundTrip | client/public/livekit-e2ee-worker.js:1 | Through layout, escaping, key index and trailer the original frame comes out, if its split is safe and it cannot end in the mark of server-injected frames; an empty frame always does. |
| FramePipeline.DroppedExactly | client/public/livekit-e2ee-worker.js:1 | A sent frame that does not end in the mark is dropped if and only if its index has failed more often than a tolerance that is not negative, there is no key at it, or the key there does not open it; otherwise what that key opens is passed on. |
| FramePipeline.InjectedExactly | client/public/livekit-e2ee-worker.js:1 | A frame with the mark behind it comes out without the mark as injected if it is recognised, and is dropped if not, whatever the key ring holds. |
| FramePipeline.ClearPasses | client/public/livekit-e2ee-worker.js:1 | A receiver that does not decrypt passes on a clear frame without its trailer if it looks for trailers, which it does in no audio frame, and as it is otherwise. |
| FrameMark.Met | client/public/livekit-e2ee-worker.js:1 | A frame that ends in the mark has the mark's end as key index and vector length, and the mark is header end and sealed part as they can be sent. |
| FrameMark.Spelled | client/public/livekit-e2ee-worker.js:1 | For every mark of that kind, escaped or not and reaching into the clear header or not, there are an ideal cipher and a vector that spell it. |
| FrameMark.ShortMark | client/public/livekit-e2ee-worker.js:1 | For a mark no longer than the sealed part that means: it ends as encrypted frames with this key index do and, for an escaped frame, escaping can emit it. |
| FramePipeline.DeliveredExactly | client/public/livekit-e2ee-worker.js:1 | Of all frames, with and without a slice, exactly those come out under every ideal cipher and vector that are empty, or whose split is safe and that cannot end in the mark. |
| FrameIv.IvsCoincide | client/public/livekit-e2ee-worker.js:1 | Two vectors are equal if and only if stream and timestamp agree in 32 bits and the counters are whole cycles of 65535 apart. |
| FrameIv.IvReads | client/public/livekit-e2ee-worker.js:1 | Read back big-endian, the vector is stream, timestamp, and timestamp less the counter's place in a cycle of 65535, each in 32 bits. |
| FrameIv.IvCounter.MakeIV | client/public/livekit-e2ee-worker.js:1 | The vector uses the stream's counter, started at random on first use, and moves it on by one. |
| FrameIv.IvCounter.MakeAll | client/public/livekit-e2ee-worker.js:1 | Over a run with any mix of streams, each vector uses its stream's start plus the number of earlier frames of the stream. |
| FrameIv.IvsDistinct | client/public/livekit-e2ee-worker.js:1 | Fewer than 65535 frames of a stream apart, vectors differ for arbitrary timestamps; those of different streams always differ. |
| FrameIv.CycleRepeats | client/public/livekit-e2ee-worker.js:1 | A full cycle later the same timestamp repeats the vector, so the bound is tight. |
| PacketTrailer.AppendTrailer | client/public/livekit-e2ee-worker.js:1 | The array writes produce payload, inverted tags, inverted length and mark, or the payload alone when both fields are zero. |
| PacketTrailer.ParseTrailer | client/public/livekit-e2ee-worker.js:1 | The backwards reader's loop over tags, with unknown and truncated tags, computes the parsed trailer. |
| PacketTrailer.TrailerRoundTrip | client/public/livekit-e2ee-worker.js:1 | For any payload, timestamp below 2^64 and frame id below 2^32, not both zero, payload and fields are read back. |
| PacketTrailer.AnyTagsRead | client/public/livekit-e2ee-worker.js:1 | For any list of tags, in any order, with unknown and repeated tags among them and a cut-off one at the end: the reader takes timestamp, frame id and user data from the last tag of each kind and strips the trailer; if no tag is known the frame stays whole. |
| Varint.Writer.Varint64 | client/public/livekit-e2ee-worker.js:1 | The writer on split halves, with the byte that straddles them, writes the base-128 form of the 64-bit value. |
| Varint.Writer.Sint64 | client/public/livekit-e2ee-worker.js:1 | Zig-zag on split halves writes the zig-zag of the signed value. |
| Varint.Reader.Varint64 | client/public/livekit-e2ee-worker.js:1 | The reader returns the 64-bit value of the varint at its cursor, moves past exactly its bytes, and rejects a truncated or an eleven-byte one as the source does. |
| Varint.Reader.Sint64 | client/public/livekit-e2ee-worker.js:1 | The signed value whose zig-zag is at the cursor. |
| Varint.VarintSound | client/public/livekit-e2ee-worker.js:1 | Every 64-bit value takes at most ten bytes and is read back whatever follows, consuming exactly those bytes (Base 128 Varints, Protocol Buffers Encoding specification). |
| Varint.WrittenShortest | client/public/livekit-e2ee-worker.js:1 | No byte string that reads as the value is shorter than what is written. |
| Varint.EncodeMinimal | client/public/livekit-e2ee-worker.js:1 | An accepted string is at least as long as the written form, and equal to it if not longer. |
| Varint.SignedRoundTrip | client/public/livekit-e2ee-worker.js:1 | Zig-zag on halves is undone on halves. |
| Varint.WriteThenRead | client/public/livekit-e2ee-worker.js:1 | Writer and reader together give back every pair of halves. |
| Varint.WriteThenReadSigned | client/public/livekit-e2ee-worker.js:1 | The same through the signed form. |
| Decimal64.Print | client/public/livekit-e2ee-worker.js:1 | Printing from 10^7 limbs gives the decimal numeral of hi * 2^32 + lo, within exact doubles and for any rounding of the two quotients as close as that of a double. |
| Decimal64.FloorRounded | client/public/livekit-e2ee-worker.js:1 | Rounding does not carry a quotient over an integer: its floor is the whole quotient for every dividend below 2^53. |
| Decimal64.Parse | client/public/livekit-e2ee-worker.js:1 | Parsing in six-digit chunks gives the number of the last 24 digits, with its sign, modulo 2^64, within exact doubles. |
| Decimal64.PrintSigned | client/public/livekit-e2ee-worker.js:1 | A signed value prints as sign and magnitude, the smallest one included. |
| Decimal64.LimbsPrinted | client/public/livekit-e2ee-worker.js:1 | A leading limb and two padded ones spell the number they stand for. |
| Decimal64.PrintThenParse | client/public/livekit-e2ee-worker.js:1 | Every pair of halves, unsigned or signed, is parsed back from its print. |
| PendingPull.RunKeeps | client/src/hooks/use-chat-realtime.ts:255-316 | Every interleaving of events, chat switches, awaits and rejections keeps the pull's invariant. |
| PendingPull.OnePull | client/src/hooks/use-chat-realtime.ts:257-264 | In every reachable state at most one pull runs, and the flag says whether one does. |
| PendingPull.AckedOnlyIfDue | client/src/hooks/use-chat-realtime.ts:285-311 | A slot put in an ack batch had just decrypted, or had just failed for exactly the fifth time since it was last taken. |
| PendingPull.StrandsExactly | client/src/hooks/use-chat-realtime.ts:235-316 | A step leaves an event without a pull that will fetch for it if and only if a request rejects, the loop test finds the chat gone, the event was for a chat no longer open, or it found no keys and no pull about to go round again. |
| PendingPull.NoLostWakeUp | client/src/hooks/use-chat-realtime.ts:45-48 | While a chat stays open with its keys there and nothing rejects, its effects set up again or not, an event at any point has a running pull of that chat that will go round again. |
| PendingPull.PullProgress | client/src/hooks/use-chat-realtime.ts:266-312 | Every step of that pull starts the owed fetch or moves it strictly nearer. |
| PendingPull.EventAfterSwitchLost | client/src/hooks/use-chat-realtime.ts:257-275 | A run in which an event for the chat just opened is left without a pull. |
| PendingPull.EventAtRejectionLost | client/src/hooks/use-chat-realtime.ts:276-314 | A run in which a rejected fetch takes a waiting event with it. |
| PendingPull.ShownElsewhereExactly | client/src/hooks/use-chat-realtime.ts:290-303 | Over every run: a row appended was looked at while its chat was open, only switches came between look and append, and it appears in another chat if and only if there were any and the last did not lead back. |
| PendingPull.ShownElsewhere | client/src/hooks/use-chat-realtime.ts:290-303 | A run that appends a row of one chat with another open. |
| PendingPull.RetryCounter.PassRows | client/src/hooks/use-chat-realtime.ts:285-308 | The loop over one batch, stopping at the first row that finds the chat switched, computes counter and ack batch. |
| PendingPull.TakenByFifth | client/src/hooks/use-chat-realtime.ts:18-19 | Over every run without a switch, with any events, rejections and other slots: a slot that five fetches returned and that were gone through is shown on the way and put in an ack batch. |
| PendingPull.RowsArePass | client/src/hooks/use-chat-realtime.ts:285-308 | With the chat open throughout, the interleaved rows of a pull end in that counter and that batch. |
| PullOutcome.PassTakes | client/src/hooks/use-chat-realtime.ts:285-308 | A pass over distinct slots takes exactly those that decrypted or have now failed five times; a slot taken counts from nothing again, one that was not has one failure more. |
| PullOutcome.ShownIffAcked | client/src/hooks/use-chat-realtime.ts:285-311 | Over every run, whatever chats are switched and requests rejected: the slots shown are exactly those put in an ack batch, or in the batch of a pull that is in a cache write. |
| PullOutcome.EventServed | client/src/hooks/use-chat-realtime.ts:255-266 | An event of the open chat is served by a fetch at once, or by one more round of the pull under way. |
| PullOutcome.KeysMatter | client/src/hooks/use-chat-realtime.ts:235-264 | It is so exactly if keys and context were there when the chat was set up. |
| PullOutcome.PullCompletes | client/src/hooks/use-chat-realtime.ts:255-316 | Undisturbed, an event leads to the end of a pull that acknowledged exactly what the pass over the fetched slots takes. |
| PullOutcome.PullEnds | client/src/hooks/use-chat-realtime.ts:266-316 | Asked for nothing more, every step of a pull, failures and switches included, ends it or brings it strictly nearer its end. |
| MessageStore.SortIsStable | client/src/store/chatStore.ts:21-25 | Sorting by time yields a sorted permutation that keeps the order within one instant. |
| MessageStore.SetMessagesSound | client/src/store/chatStore.ts:112-123 | Replacing the list leaves it sorted, unique and within its limit, and no message that stays goes from readable to a placeholder. |
| MessageStore.AppendSound | client/src/store/chatStore.ts:125-139 | An append leaves the list sorted, unique and within its limit, and takes no readable text away. |
| MessageStore.AppendNew | client/src/store/chatStore.ts:125-139 | A new message joins those on screen exactly as it came; if the list was full, the earliest of them all makes room, be it the first or the new one. |
| MessageStore.AppendNewHolds | client/src/store/chatStore.ts:125-139 | The same for one message: it is there afterwards if and only if it is the new one or one from before and has not had to make room. |
| MessageStore.AppendKnown | client/src/store/chatStore.ts:125-139 | A message already there gets the new text and nothing but the text, if its own is a placeholder and the new one is not; else the list stays as it is. |
| MessageStore.SetMessagesTexts | client/src/store/chatStore.ts:100-123 | A replacement by sorted rows shows the newest of them, each as it came, unless it is a placeholder for a message that read well on screen: then with exactly that text. |
| MessageStore.NoticeShows | client/src/store/chatStore.ts:100-139 | A key-change notice comes up by replacement whatever stood there, and by append in place of a placeholder. |
| MessageStore.AppendShows | client/src/store/chatStore.ts:125-139 | An append changes a message on screen exactly when it brings a readable text for a placeholder. |
| MessageStore.AppendMissesExactly | client/src/store/chatStore.ts:125-139 | An appended message is not on screen afterwards exactly when it was not before, the list is full and all of it is later. |
| MessageHistory.MessageCache.CacheMessages | client/src/lib/message-cache.ts:160-176 | The batch write puts every live message under its id, the last one winning. |
| MessageHistory.MessageCache.CacheMessage | client/src/lib/message-cache.ts:180-196 | The single write skips deleted ids and failed texts. |
| MessageHistory.LoadedIsSorted | client/src/hooks/use-load-chat-messages.ts:98-117 | A load's result is the server's rows sorted by creation time, in the server's order within an instant; only texts were touched. |
| MessageHistory.LoadedTexts | client/src/hooks/use-load-chat-messages.ts:98-111 | A row that can be read keeps its own text; one that cannot gets exactly the text the seed has for it, if that can be read; otherwise it is left as it is. |
| MessageHistory.LoadAcks | client/src/hooks/use-load-chat-messages.ts:128-145 | A load acknowledges exactly the rows from others that are neither failed nor flagged after mending. |
| MessageHistory.CacheLosesExactly | client/src/hooks/use-load-chat-messages.ts:118-124 | A load overwrites a readable cached text by a bad one exactly when the row came out empty and the seed does not have it. |
| MessageHistory.CompleteSeedLosesNothing | client/src/lib/message-cache.ts:198-213 | With fewer than fifty cached messages of the chat, no readable text is lost. |
| MessageHistory.CacheCanLose | client/src/hooks/use-load-chat-messages.ts:47-56 | A concrete load with an unreadable seed that loses a text. |
| MessageDelivery.RunKeeps | client/src/hooks/use-load-chat-messages.ts:44-159 | Every interleaving of loads, retries, cancellations, delivery-sync pulls, evictions and deletions keeps the invariant. |
| MessageDelivery.TextMonotone | client/src/store/chatStore.ts:100-110 | A message that reads well goes on reading well while it stays on screen, whichever path writes last. |
| MessageDelivery.CancelledExactly | client/src/hooks/use-load-chat-messages.ts:113-159 | Over every run: a cancelled load touches screen, cache and acks if and only if it was cancelled during its cache write; then the screen becomes its newest rows, all of its own chat, whatever chat is open. |
| MessageDelivery.CutShows | client/src/hooks/use-load-chat-messages.ts:113-159 | Over every run: the loads cancelled in that window are exactly those that have shown something since they were cancelled, or still will. |
| MessageDelivery.ElsewhereExactly | client/src/hooks/use-load-chat-messages.ts:113-159 | Over every run: rows of another chat than the open one come only from loads, and from one not cancelled exactly when the chat was switched and the effects were not yet set up again. |
| MessageDelivery.PullLosesExactly | client/src/hooks/use-message-delivery-sync.ts:53-70 | A row acknowledged by a pull is on no screen and in no cache exactly when it was not before, its cache write failed or it had been deleted, and another chat is open or the full screen is all later. |
| MessageDelivery.LoadLosesExactly | client/src/hooks/use-load-chat-messages.ts:118-145 | A row acknowledged by a load is kept nowhere exactly when it was not cached, the cache write failed or it had been deleted, and fifty of the load's rows come after it. |
| MessageDelivery.AckedAndGone | client/src/hooks/use-message-delivery-sync.ts:53-70 | A run that acknowledges a message and keeps it nowhere. |
| MessageDelivery.StaleLoadShown | client/src/hooks/use-load-chat-messages.ts:121-127 | A run in which a load cancelled in that window shows the old chat's rows in the new chat. |
| MessageDelivery.DeliverySync.PullRows | client/src/hooks/use-message-delivery-sync.ts:50-71 | The loop over the decrypted rows computes screen, cache and ack batch, for any switches and cache failures on the way. |
| MessageDelivery.PullBatch | client/src/hooks/use-message-delivery-sync.ts:64-70 | The batch holds exactly the ids of rows that are neither failed nor flagged. |
| MessageDelivery.PullKeepsScreen | client/src/hooks/use-message-delivery-sync.ts:62-63 | No row of a pull takes a readable text off the screen. |
| MessageDelivery.PullElsewhere | client/src/hooks/use-message-delivery-sync.ts:56-62 | While another chat is open a pull leaves the screen alone. |
| MessageOutcome.DeliverShows | client/src/hooks/use-message-delivery-sync.ts:56-63 | One delivered row on screen: with its chat open it joins the list as it came, or gives a placeholder exactly its text, or changes nothing; with another open the screen stays. |
| MessageOutcome.DeliverKeepsRow | client/src/hooks/use-message-delivery-sync.ts:53-70 | In the cache the row is under its id as it came, unless its write failed, it had been deleted or was not decrypted, and all else stays; it is acknowledged exactly if it was decrypted and is no key-change notice. |
| MessageOutcome.PullIsLoop | client/src/hooks/use-message-delivery-sync.ts:50-71 | The interleaved steps of a pull, the chat switched at will between them, do what its loop does, and then the pull is over. |
| MessageOutcome.SaveLeaves | client/src/hooks/use-load-chat-messages.ts:118-145 | A load that ends shows its newest rows, caches each that was decrypted and not deleted as it is, and acknowledges exactly the rows of others that were decrypted and are no notices. |
| MessageOutcome.LoadLands | client/src/hooks/use-load-chat-messages.ts:46-159 | From any state, an opened chat gets to its rows on screen and its acks, whether or not the first attempt fails. |
| MessageOutcome.SecondFailureEnds | client/src/hooks/use-load-chat-messages.ts:65-70 | A second failure ends the load: nothing acknowledged or cached, the cached messages on screen. |
| MessageOutcome.MountShows | client/src/hooks/use-load-chat-messages.ts:35-42 | Setting up the effects empties the screen exactly when no chat is open, and starts no load while keys or context are missing. |
| MessageOutcome.DeleteForGood | client/src/lib/message-cache.ts:160-196 | Over every run: a deleted message is never cached again, whatever loads and pulls under way bring. |
| DeviceLink.RunDisciplined | client/src/components/settings-link-device-modal.tsx:138-315 | For any relay, every run keeps the modal's invariant: the digits on the confirmation screen are those of the refs the confirmation will use. |
| DeviceLink.ConfirmedKeysOnly | client/src/components/settings-link-device-modal.tsx:283-308 | Whatever the relay answers, a deposit follows the vault gate, and a confirmed one is under the key and id whose digits were on screen. |
| LinkOverlap.ConfirmedUnlessOverlap | client/src/components/settings-link-device-modal.tsx:171-308 | With both flows of the modal under way at once, any relay and any late answers: unless Show QR was pressed while a typed code was pending, every confirmation sends to the key and id whose digits were on screen. |
| LinkOverlap.OverlapExactly | client/src/components/settings-link-device-modal.tsx:513-522 | Pressing Show QR keeps that so for whatever follows if and only if no typed code is pending. |
| LinkOverlap.OverlapHappens | client/src/components/settings-link-device-modal.tsx:247-308 | A run in which the confirmed digits are not those of the key and id sent to. |
| DeviceLink.ComparedDigits | client/src/lib/device-link-crypto.ts:134-162 | For any relay: if the confirmed digits are those on the new device's screen, the vault goes to a key with that device's digits, hence to its own key and id as far as digits tell keys apart. |
| DeviceLink.ReceivedIsWhatWasSent | client/src/components/login-qr-device-panel.tsx:183-198 | With a relay that only stores, drops or expires, a device that reaches `received` has persisted exactly a user name and vault the existing device encrypted to its key and deposited under its id. |
| DeviceLink.SameDigits | client/src/lib/device-link-crypto.ts:134-148 | With such a relay both screens show the same digits for the same id. |
| DeviceLink.KeysKept | server/src/lib/device-rendezvous-store.ts:138-192 | The first key stored for an id is never replaced. |
| DeviceLink.RelayKeeps | server/src/routes/devices.ts:636-671 | The relay never changes the secrets, key or blob stored for an id, and takes a blob only under the deposit secret or the typing code, which a deposit uses up. |
| LinkCompletes.TypedCodeCompletes | client/src/components/settings-link-device-modal.tsx:247-315 | A typed-code link completes with the confirmed digits those of the new device, after any number of its polls in vain and of codes that resolve to nothing. |
| LinkCompletes.ShownQrCompletes | client/src/components/settings-link-device-modal.tsx:171-239 | A link by a code the existing device shows completes, for every number of polls of either device that come too early, and after any number of earlier attempts that failed in any of four ways. |
| LinkCompletes.ScanCompletes | client/src/components/settings-link-device-modal.tsx:138-168 | A link by scanning completes, after any number of deposits that failed. |
| LinkCompletes.PollsGoOn | client/src/components/settings-link-device-modal.tsx:195-214 | Any number of polls before the deadline, answered honestly while no key has come, leaves everything as it is: the code on screen, the refs, and the next poll scheduled. |
| LinkCompletes.ClaimsGoOn | client/src/components/login-qr-device-panel.tsx:165-178 | The same for the polls of the new device until its vault has been deposited. |
| LinkCompletes.ModalRecovers | client/src/components/settings-link-device-modal.tsx:195-238 | A failed, expired or vanished rendezvous takes the modal back to the choice of modes, waiting for nothing, where a code can be shown again. |
| LinkCompletes.ModalRetries | client/src/components/settings-link-device-modal.tsx:252-315 | After a code that does not resolve or a deposit that fails the modal is where it was, and the same can be typed, scanned or confirmed again. |
| LinkCompletes.PanelRecovers | client/src/components/login-qr-device-panel.tsx:167-208 | A request of the new device that fails, comes late or brings a blob under another key ends in an error with nothing persisted, from which either mode can be started again. |
| DeviceLinkPanels.LinkModal.StartShowQr | client/src/components/settings-link-device-modal.tsx:171-187 | When the handler returns no key is pending and no confirmation can send anything, whatever was pending before. |
| DeviceLinkPanels.LinkModal.RendezvousCreated | client/src/components/settings-link-device-modal.tsx:187-192 | Without a pending key a confirmation still sends nothing once the rendezvous is there. |
| DeviceLinkPanels.LinkModal.PollAnswered | client/src/components/settings-link-device-modal.tsx:203-220 | Without a key the next poll of the same rendezvous is scheduled and the phase stays; a vanished rendezvous goes back to the choice of modes; a key has its digits derived next. An answer without a key, or one too late, changes nothing that a confirmation would send; one with a key makes that key and the polled id what it would send to, and cannot be confirmed before digits are shown. |
| DeviceLinkPanels.LinkModal.CodeDerived | client/src/components/settings-link-device-modal.tsx:217-224 | The digits put on screen are those of the key and id that a confirmation will send to. |
| DeviceLinkPanels.LinkModal.CodeResolved | client/src/components/settings-link-device-modal.tsx:266-269 | From here a confirmation would send under the typed code and to the resolved key, whatever secret was held before, but there is nothing to confirm yet. |
| DeviceLinkPanels.LinkModal.TypedCodeDerived | client/src/components/settings-link-device-modal.tsx:270-273 | The digits put on screen are those of the key and id that a confirmation will send to. |
| DeviceLinkPanels.LinkModal.ConfirmAndDeposit | client/src/components/settings-link-device-modal.tsx:283-307 | In every state the handlers can lead to, what is sent is the vault under the key and id whose digits are on screen. |
| DeviceLinkPanels.LoginPanel.ClaimAnswered | client/src/components/login-qr-device-panel.tsx:183-202 | The device counts as linked exactly when a blob came that opens under its own key; only then is anything persisted, and it is that content. |
| NoiseGate.NoiseGateProcessor.Process | client/public/worklets/noise-gate.js:32-80 | A block sets hold and gain as the recurrence says. From a gain in [0, 1] every output sample is its input times a falling power of the release coefficient if the gate is on, the level below the threshold and the hold spent, and times 1 less a falling power of the attack coefficient in every other case; a channel without an input of its own repeats the first. |
| NoiseGate.GainExactly | client/public/worklets/noise-gate.js:43-72 | With the gate on, the level below the threshold and the hold spent the gain falls by release^n, in every other case its distance from 1 by attack^n; a block without an output leaves it as it is. |
| NoiseGate.ShutFades | client/public/worklets/noise-gate.js:53-72 | A shut gate fades through every run of quiet blocks of any sizes: after m samples the gain is exactly release^m of what it was. |
| NoiseGate.ShutSilences | client/public/worklets/noise-gate.js:53-72 | So it is below any bound after 1 / ((1 - release) * bound) samples at the latest. |
| NoiseGate.FadesThrough | client/public/worklets/noise-gate.js:53-72 | A sample that comes behind m samples of a shut gate is its input times release to its own place in the run. |
| NoiseGate.ClosedForm | client/public/worklets/noise-gate.js:60-71 | After n samples the gain is target + coef^n * (gain - target). |
| NoiseGate.NoOvershoot | client/public/worklets/noise-gate.js:60-71 | Each sample brings the gain strictly nearer the target without reaching or passing it. |
| NoiseGate.BlocksJoin | client/public/worklets/noise-gate.js:60-72 | Blocks with one target act like one long block with the coefficient chosen at its start. |
| NoiseGate.RunBounded | client/public/worklets/noise-gate.js:21-72 | Over any run the gain stays in [0, 1] and the hold within its length. |
| NoiseGate.NeverLouder | client/public/worklets/noise-gate.js:67-70 | No output sample exceeds its input sample. |
| NoiseGate.HoldsExactly | client/public/worklets/noise-gate.js:50-58 | With block size n, whatever block comes next has its gain fall if and only if it is quiet and at least ceil(holdLength / n) quiet blocks have come since the last loud one, blocks with the gate off not counting; otherwise it rises. |
| EnvFile.UpsertKey | scripts/bootstrap.js:68-87 | The loop with its `hit` flag replaces every line of the key, or appends one, and joins with LF. |
| EnvFile.ParseEnvFile | client/scripts/write-env-local.js:22-36 | The loop over lines computes the last-wins map. |
| EnvFile.ReadersSeeEdit | scripts/bootstrap.js:68-93 | After an edit of a plain file both readers give the trimmed value for the key and for every other key what they gave before. |
| EnvFile.EditIdempotent | scripts/bootstrap.js:68-87 | On a plain file the same edit again changes nothing. |
| EnvFile.IdempotentExactly | scripts/bootstrap.js:68-87 | For every file: the same edit again changes nothing if and only if no line of the edited file but the last ends in CR. |
| EnvFile.KeysAgree | client/scripts/write-env-local.js:26-34 | Editor and map reader see the same key in every line, in any spacing. |
| EnvFile.AssignmentSays | client/scripts/write-env-local.js:26-34 | A written line says its key and its value trimmed. |
| EnvFile.SpacedSays | client/scripts/write-env-local.js:26-34 | A line in any spacing, with further equals signs or a # in its value, says the same key to editor and reader, and its trimmed value. |
| EnvFile.NothingSaid | client/scripts/write-env-local.js:26-34 | A blank line, a comment behind any spaces and a line without an equals sign say nothing to either. |
| EnvFile.LinesKept | scripts/bootstrap.js:68-87 | The lines of the edited file are those of the file in their order, with every line that assigns the key replaced; if there was none, one more is put behind them. |
| EnvFile.GetKeySees | scripts/bootstrap.js:89-93 | On a plain file the multi-line pattern finds the same first line as the editor's split. |
| EnvFile.ParseSees | client/scripts/write-env-local.js:26-34 | Splitting at LF only makes no difference to the map, CR LF or not. |
| EnvFile.GetKeyExactly | scripts/bootstrap.js:89-93 | For every file: after an edit `getKey` gives the new value, unless an assignment stands behind another line end within a line, before every line the editor recognises; then it gives that one. |
| EnvFile.HiddenLineWins | scripts/bootstrap.js:89-93 | Files for which it is the latter: an old assignment behind a lone CR or an exotic line end in a comment. |
| EnvFile.OtherKeyExactly | scripts/bootstrap.js:89-93 | For every file and another key: before the edit `getKey` gives what it finds in all lines, afterwards what it finds in the lines that were not replaced. |
| EnvFile.MapSeesEdit | client/scripts/write-env-local.js:22-36 | For every file, whatever line ends it has: after an edit the map reader gives the trimmed value for the key and for every other key what it gave before. |

## Left out

- GroupKeyProtocol.NewcomerSealed: hand-outs whose fetch saw the epoch move between its two queries are excluded, because they do leak (JoinInsideFetchLeaks).
- GroupKeyProtocol.SealedExactly: a hand-out of a key newer than the fetched epoch, which takes a rotation that ended inside the fetch, is excluded; for it SealedIfBegun gives one direction.
- GroupKeyClient.Session.RotateIfStale: requests that fail, which GroupKeyProtocol has at every await, do not occur in the sequential methods.
- FrameCryptor.FrameRoundTrip: frames without a recognised slice are not among these; FrameFallback.FallbackExactly says which of them arrive.
- FrameCryptor.Decode: the ratchet retries after a failed attempt are not modelled; each derives from the same stored material.
- EnvFile.ReadersSeeEdit: the key is a name of letters, digits and underscores, as all keys the scripts pass are; a key read by `parseEnvFile` that collides with a property of every JavaScript object is not modelled.
- NoiseGate.NoiseGateProcessor.Process: rounding of floating point, and the logarithm and root behind the level in dBFS, are not modelled; empty inputs, on which the source returns at once, are outside its precondition.
- DeviceLink.ComparedDigits: six digits do collide, so that they tell keys apart is a hypothesis of its last conclusion.
- MessageDelivery.RunKeeps: removal, burning and editing of messages by the user, and the realtime path beside the two modelled ones, are not steps of this machine.
- Transfer of ownership, several chats sharing one lock set, and stored blobs that cannot be parsed.
- More than one linking session at a time in one panel: the code does not guard a poll left over from an earlier session.
- DeviceLink.RunDisciplined: its modal waits for one thing at a time. Typing a code while a stopped status request is unanswered, scanning or pressing Show QR while a code resolves, are in LinkOverlap, where the last of these breaks the guarantee.
- DeviceLink.ConfirmedKeysOnly: the same; it does not hold of runs in which Show QR is pressed while a typed code resolves (LinkOverlap.OverlapHappens).
- The countdown, QR scanning, clipboard, rendering and translations of the panels.
- The cryptographic primitives (AES-GCM, ECDH, HKDF, Argon2, the Double Ratchet) and the key ring's failure accounting.
- The rest of the worker bundle (logging, events, media elements, protobuf reflection, 32-bit varints, which are easy members beside the 64-bit ones).
- Server, database and transport beyond the handlers named above.
- In `DeviceLink`, `PendingPull`, `MessageDelivery` and `GroupKeyProtocol` the refs and state of components are records of a state machine, because other steps run between their awaits; the handlers' own order of assignments is in the classes beside them.
