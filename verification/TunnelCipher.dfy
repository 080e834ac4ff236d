// The tunnel's frame encryption, one direction at a time (crates/ws-net-common/src/tunnel_crypto.rs).
// ChaCha20-Poly1305 is symbolic: `seal` is any function that adds 16 bytes, and `open` succeeds only on what was
// sealed under the same key, nonce and associated data (section 2.8 of RFC 8439).
module TunnelCipher {
  import opened Basics
  import opened DataFrames

  const FRAME_MAGIC: Bytes := [0x57, 0x53, 0x4E, 0x45]
  const FRAME_HEADER_LEN := 12
  const FRAME_TAG_LEN := 16
  const KIND_TEXT: Byte := 1
  const KIND_BINARY: Byte := 2
  const MAX_FRAME := 16 * 1024 * 1024
  const LAST_WORD: Word64 := 0xFFFF_FFFF_FFFF_FFFF

  // "A2GW" and "G2AC"
  const ACCESS_PREFIX: Bytes := [0x41, 0x32, 0x47, 0x57]
  const GATEWAY_PREFIX: Bytes := [0x47, 0x32, 0x41, 0x43]

  datatype Kind = TextFrame | BinaryFrame

  datatype CipherError =
    | PayloadTooLarge
    | SendExhausted
    | InvalidFrame
    | FrameTooLarge
    | UnexpectedSequence
    | AuthenticationFailed
    | ReceiveExhausted
    | UnknownKind

  type Seal = (Bytes, Bytes, Bytes) -> Bytes

  ghost predicate IsSeal(seal: Seal) {
    forall nonce, aad, plaintext :: |seal(nonce, aad, plaintext)| == |plaintext| + FRAME_TAG_LEN
  }

  datatype Sealed = Sealed(nonce: Bytes, aad: Bytes, plaintext: Bytes)

  function Open(seal: Seal, log: seq<Sealed>, nonce: Bytes, aad: Bytes, box: Bytes): (r: Option<Bytes>)
    ensures r.Some? ==> Sealed(nonce, aad, r.value) in log && seal(nonce, aad, r.value) == box
    ensures r.None? ==> forall p :: Sealed(nonce, aad, p) in log ==> seal(nonce, aad, p) != box
  {
    if log == [] then None
    else
      var last := log[|log| - 1];
      if last.nonce == nonce && last.aad == aad && seal(nonce, aad, last.plaintext) == box
      then Some(last.plaintext)
      else Open(seal, log[..|log| - 1], nonce, aad, box)
  }

  // `sequence_nonce`
  function SequenceNonce(prefix: Bytes, sequence: Word64): Bytes
    requires |prefix| == 4
  {
    prefix + WordBytes(sequence)
  }

  lemma NonceInjective(p: Bytes, m: Word64, q: Bytes, n: Word64)
    requires |p| == |q| == 4 && SequenceNonce(p, m) == SequenceNonce(q, n)
    ensures p == q && m == n
  {
    assert p == SequenceNonce(p, m)[..4] == q;
    assert WordBytes(m) == SequenceNonce(p, m)[4..] == WordBytes(n);
    WordRoundTrip(m, WordBytes(m));
    WordRoundTrip(n, WordBytes(n));
  }

  function KindByte(kind: Kind): Byte {
    match kind
    case TextFrame => KIND_TEXT
    case BinaryFrame => KIND_BINARY
  }

  function Plaintext(kind: Kind, payload: Bytes): Bytes {
    [KindByte(kind)] + payload
  }

  // ---------------------------------------------------------------- what encrypt and decrypt compute

  function EncryptError(nextSend: Word64, payload: Bytes): Option<CipherError> {
    if |payload| > MAX_FRAME - FRAME_HEADER_LEN - FRAME_TAG_LEN - 1 then Some(PayloadTooLarge)
    else if nextSend == LAST_WORD then Some(SendExhausted)
    else None
  }

  function FrameOf(seal: Seal, sequence: Word64, entry: Sealed): Bytes {
    FRAME_MAGIC + WordBytes(sequence) + seal(entry.nonce, entry.aad, entry.plaintext)
  }

  // The receive counter afterwards, and the result.
  function Decrypt(seal: Seal, log: seq<Sealed>, prefix: Bytes, aad: Bytes, expected: Word64, frame: Bytes)
    : (Word64, Result<(Kind, Bytes), CipherError>)
    requires |prefix| == 4
  {
    if |frame| < FRAME_HEADER_LEN + 1 + FRAME_TAG_LEN || frame[..4] != FRAME_MAGIC then (expected, Err(InvalidFrame))
    else if |frame| > MAX_FRAME then (expected, Err(FrameTooLarge))
    else if WordOf(frame[4..12]) != expected then (expected, Err(UnexpectedSequence))
    else
      var plain := Open(seal, log, SequenceNonce(prefix, expected), aad, frame[FRAME_HEADER_LEN..]);
      if plain.None? then (expected, Err(AuthenticationFailed))
      else if expected == LAST_WORD then (expected, Err(ReceiveExhausted))
      else
        var next := expected + 1;
        if plain.value == [] then (next, Err(UnknownKind))
        else if plain.value[0] == KIND_TEXT then (next, Ok((TextFrame, plain.value[1..])))
        else if plain.value[0] == KIND_BINARY then (next, Ok((BinaryFrame, plain.value[1..])))
        else (next, Err(UnknownKind))
  }

  // ---------------------------------------------------------------- what one direction's sender leaves behind

  // The n-th sealing used sequence number n, the direction's own prefix and label, and a known kind.
  ghost predicate EntryAt(prefix: Bytes, aad: Bytes, log: seq<Sealed>, n: nat)
    requires |prefix| == 4 && n < |log|
  {
    && n < LAST_WORD && log[n].nonce == SequenceNonce(prefix, n) && log[n].aad == aad
    && exists kind, payload :: log[n].plaintext == Plaintext(kind, payload)
                               && |payload| <= MAX_FRAME - FRAME_HEADER_LEN - FRAME_TAG_LEN - 1
  }

  ghost predicate SentBy(prefix: Bytes, aad: Bytes, log: seq<Sealed>) {
    && |prefix| == 4 && |log| <= LAST_WORD
    && forall n :: 0 <= n < |log| ==> EntryAt(prefix, aad, log, n)
  }

  // No two sealings of a direction share a nonce.
  lemma NoncesDistinct(prefix: Bytes, aad: Bytes, log: seq<Sealed>, m: nat, n: nat)
    requires SentBy(prefix, aad, log) && m < |log| && n < |log| && log[m].nonce == log[n].nonce
    ensures m == n
  {
    assert EntryAt(prefix, aad, log, m) && EntryAt(prefix, aad, log, n);
    NonceInjective(prefix, m, prefix, n);
  }

  lemma OpenFindsTheEntry(seal: Seal, prefix: Bytes, aad: Bytes, log: seq<Sealed>, n: Word64, box: Bytes)
    requires SentBy(prefix, aad, log)
    ensures var r := Open(seal, log, SequenceNonce(prefix, n), aad, box);
            && (r.Some? <==> n < |log| && seal(log[n].nonce, log[n].aad, log[n].plaintext) == box)
            && (r.Some? ==> r.value == log[n].plaintext)
  {
    var r := Open(seal, log, SequenceNonce(prefix, n), aad, box);
    if n < |log| {
      assert EntryAt(prefix, aad, log, n);
      assert log[n] == Sealed(SequenceNonce(prefix, n), aad, log[n].plaintext);
    }
    if r.Some? {
      var i :| 0 <= i < |log| && log[i] == Sealed(SequenceNonce(prefix, n), aad, r.value);
      assert EntryAt(prefix, aad, log, i);
      NonceInjective(prefix, i, prefix, n);
    }
  }

  function Content(plaintext: Bytes): (Kind, Bytes)
    requires plaintext != []
  {
    (if plaintext[0] == KIND_TEXT then TextFrame else BinaryFrame, plaintext[1..])
  }

  // Against any frame whatsoever: it is accepted exactly when it is, byte for byte, the frame the sender made with the
  // next expected number; then it yields what was sent and the counter moves by one. Otherwise nothing moves.
  lemma AcceptsOnlyTheNextFrame(seal: Seal, prefix: Bytes, aad: Bytes, log: seq<Sealed>, expected: Word64, frame: Bytes)
    requires IsSeal(seal) && SentBy(prefix, aad, log)
    ensures var (next, r) := Decrypt(seal, log, prefix, aad, expected, frame);
            && (r.Ok? <==> expected < |log| && frame == FrameOf(seal, expected, log[expected]))
            && (r.Ok? ==> next == expected + 1 && log[expected].plaintext != []
                          && r.value == Content(log[expected].plaintext))
            && (r.Err? ==> next == expected && r.error != UnknownKind && r.error != ReceiveExhausted)
  {
    var (next, r) := Decrypt(seal, log, prefix, aad, expected, frame);
    if expected < |log| {
      assert EntryAt(prefix, aad, log, expected);
      FrameShape(seal, expected, log[expected]);
    }
    if |frame| >= FRAME_HEADER_LEN + 1 + FRAME_TAG_LEN {
      OpenFindsTheEntry(seal, prefix, aad, log, expected, frame[FRAME_HEADER_LEN..]);
      WordRoundTrip(expected, frame[4..12]);
      assert frame == frame[..4] + frame[4..12] + frame[FRAME_HEADER_LEN..];
    }
  }

  lemma FrameShape(seal: Seal, sequence: Word64, entry: Sealed)
    requires IsSeal(seal)
    ensures var frame := FrameOf(seal, sequence, entry);
            && |frame| == FRAME_HEADER_LEN + |entry.plaintext| + FRAME_TAG_LEN
            && frame[..4] == FRAME_MAGIC && WordOf(frame[4..12]) == sequence
            && frame[FRAME_HEADER_LEN..] == seal(entry.nonce, entry.aad, entry.plaintext)
  {
    var frame := FrameOf(seal, sequence, entry);
    assert frame[4..12] == WordBytes(sequence);
    WordRoundTrip(sequence, WordBytes(sequence));
  }

  // At every counter: a payload is taken exactly if its frame fits 16 MiB and a number is left, and the numbers run out
  // at the last 64-bit one and nowhere before.
  lemma SendsExactly(nextSend: Word64, payload: Bytes)
    ensures EncryptError(nextSend, payload).None? <==>
              |payload| + 29 <= 16 * 1024 * 1024 && nextSend < 0xFFFF_FFFF_FFFF_FFFF
    ensures EncryptError(nextSend, payload) == Some(SendExhausted) <==>
              |payload| + 29 <= 16 * 1024 * 1024 && nextSend == 0xFFFF_FFFF_FFFF_FFFF
    ensures EncryptError(nextSend, payload) == Some(PayloadTooLarge) <==> |payload| + 29 > 16 * 1024 * 1024
  {
  }

  // The nonce is the direction's prefix and the number, most significant byte first.
  lemma NonceLayout(prefix: Bytes, sequence: Word64)
    requires |prefix| == 4
    ensures |SequenceNonce(prefix, sequence)| == 12 && SequenceNonce(prefix, sequence)[..4] == prefix
    ensures WordOf(SequenceNonce(prefix, sequence)[4..]) == sequence
  {
    WordRoundTrip(sequence, WordBytes(sequence));
    assert SequenceNonce(prefix, sequence)[4..] == WordBytes(sequence);
  }

  // Sender and receiver agree: every payload the sender takes, and none it refuses for size, fits the receiver's
  // limit; the frame is 29 bytes longer than the payload; and it opens to what was sealed.
  lemma RoundTrip(seal: Seal, prefix: Bytes, aad: Bytes, log: seq<Sealed>, kind: Kind, payload: Bytes)
    requires IsSeal(seal) && SentBy(prefix, aad, log)
    ensures |payload| + 29 <= MAX_FRAME <==> EncryptError(|log|, payload) != Some(PayloadTooLarge)
    ensures |payload| + 29 <= MAX_FRAME && |log| < LAST_WORD ==>
              var entry := Sealed(SequenceNonce(prefix, |log|), aad, Plaintext(kind, payload));
              && |FrameOf(seal, |log|, entry)| == |payload| + 29
              && SentBy(prefix, aad, log + [entry])
              && Decrypt(seal, log + [entry], prefix, aad, |log|, FrameOf(seal, |log|, entry))
                   == (|log| + 1, Ok((kind, payload)))
  {
    if EncryptError(|log|, payload).None? {
      var entry := Sealed(SequenceNonce(prefix, |log|), aad, Plaintext(kind, payload));
      SealingExtendsTheLog(prefix, aad, log, kind, payload);
      FrameShape(seal, |log|, entry);
      AcceptsOnlyTheNextFrame(seal, prefix, aad, log + [entry], |log|, FrameOf(seal, |log|, entry));
    }
  }

  lemma SealingExtendsTheLog(prefix: Bytes, aad: Bytes, log: seq<Sealed>, kind: Kind, payload: Bytes)
    requires SentBy(prefix, aad, log) && EncryptError(|log|, payload).None?
    ensures SentBy(prefix, aad, log + [Sealed(SequenceNonce(prefix, |log|), aad, Plaintext(kind, payload))])
    ensures forall n :: 0 <= n < |log| ==> log[n].nonce != SequenceNonce(prefix, |log|)
  {
    var grown := log + [Sealed(SequenceNonce(prefix, |log|), aad, Plaintext(kind, payload))];
    forall n | 0 <= n < |log| ensures EntryAt(prefix, aad, grown, n) && log[n].nonce != SequenceNonce(prefix, |log|) {
      assert EntryAt(prefix, aad, log, n);
      if log[n].nonce == SequenceNonce(prefix, |log|) {
        NonceInjective(prefix, n, prefix, |log|);
      }
    }
    assert EntryAt(prefix, aad, grown, |log|);
  }

  // A frame reflected back at its sender is refused even if both directions had one key.
  lemma ReflectionIsRefused(seal: Seal, prefix: Bytes, aad: Bytes, log: seq<Sealed>,
                            otherPrefix: Bytes, otherAad: Bytes, expected: Word64, frame: Bytes)
    requires SentBy(prefix, aad, log) && |otherPrefix| == 4 && otherPrefix != prefix
    ensures Decrypt(seal, log, otherPrefix, otherAad, expected, frame).1.Err?
    ensures Decrypt(seal, log, otherPrefix, otherAad, expected, frame).0 == expected
  {
    if |frame| >= FRAME_HEADER_LEN + 1 + FRAME_TAG_LEN {
      var r := Open(seal, log, SequenceNonce(otherPrefix, expected), otherAad, frame[FRAME_HEADER_LEN..]);
      if r.Some? {
        var i :| 0 <= i < |log| && log[i] == Sealed(SequenceNonce(otherPrefix, expected), otherAad, r.value);
        assert EntryAt(prefix, aad, log, i);
        NonceInjective(prefix, i, otherPrefix, expected);
      }
    }
  }

  // So neither end ever takes its own frames for its peer's.
  lemma OwnFramesAreRefused(seal: Seal, log: seq<Sealed>, aad: Bytes, otherAad: Bytes, expected: Word64, frame: Bytes)
    ensures SentBy(ACCESS_PREFIX, aad, log) ==> Decrypt(seal, log, GATEWAY_PREFIX, otherAad, expected, frame).1.Err?
    ensures SentBy(GATEWAY_PREFIX, aad, log) ==> Decrypt(seal, log, ACCESS_PREFIX, otherAad, expected, frame).1.Err?
  {
    assert ACCESS_PREFIX[0] != GATEWAY_PREFIX[0];
    if SentBy(ACCESS_PREFIX, aad, log) {
      ReflectionIsRefused(seal, ACCESS_PREFIX, aad, log, GATEWAY_PREFIX, otherAad, expected, frame);
    }
    if SentBy(GATEWAY_PREFIX, aad, log) {
      ReflectionIsRefused(seal, GATEWAY_PREFIX, aad, log, ACCESS_PREFIX, otherAad, expected, frame);
    }
  }

  // ---------------------------------------------------------------- the cipher objects

  // A derived key, held by both ends of the tunnel.
  class AeadKey {
    const seal: Seal
    var log: seq<Sealed>

    constructor (seal: Seal)
      requires IsSeal(seal)
      ensures this.seal == seal && log == []
    {
      this.seal := seal;
      this.log := [];
    }

    // `seal_in_place_separate_tag`. `Nonce::assume_unique_for_key` is an obligation of the caller here.
    method SealInPlace(nonce: Bytes, aad: Bytes, buffer: array<Byte>, from: nat, to: nat) returns (tag: Bytes)
      requires IsSeal(seal) && from <= to <= buffer.Length
      requires forall n :: 0 <= n < |log| ==> log[n].nonce != nonce
      modifies this, buffer
      ensures log == old(log) + [Sealed(nonce, aad, old(buffer[from..to]))]
      ensures |tag| == FRAME_TAG_LEN && buffer[from..to] + tag == seal(nonce, aad, old(buffer[from..to]))
      ensures buffer[..from] == old(buffer[..from]) && buffer[to..] == old(buffer[to..])
    {
      var plaintext := buffer[from..to];
      var box := seal(nonce, aad, plaintext);
      log := log + [Sealed(nonce, aad, plaintext)];
      forall i | from <= i < to {
        buffer[i] := box[i - from];
      }
      tag := box[to - from..];
      assert buffer[from..to] == box[..to - from];
    }

    // `open_in_place` on `buffer[from..]`; the result is the length of the plaintext.
    method OpenInPlace(nonce: Bytes, aad: Bytes, buffer: array<Byte>, from: nat) returns (length: Option<nat>)
      requires IsSeal(seal) && from + FRAME_TAG_LEN <= buffer.Length
      modifies buffer
      ensures var plain := Open(seal, log, nonce, aad, old(buffer[from..]));
              && (length.Some? <==> plain.Some?)
              && (length.Some? ==> length.value == buffer.Length - from - FRAME_TAG_LEN
                                   && buffer[from..from + length.value] == plain.value)
      ensures buffer[..from] == old(buffer[..from])
    {
      var plain := Open(seal, log, nonce, aad, buffer[from..]);
      if plain.None? {
        return None;
      }
      var plaintext := plain.value;
      assert |plaintext| == buffer.Length - from - FRAME_TAG_LEN;
      forall i | from <= i < from + |plaintext| {
        buffer[i] := plaintext[i - from];
      }
      return Some(|plaintext|);
    }
  }

  class DirectionCipher {
    const key: AeadKey
    const noncePrefix: Bytes
    const aad: Bytes
    var nextSend: Word64
    var nextReceive: Word64

    // This object is the direction's sender: its counter is the number of sealings under the key.
    ghost predicate Sender()
      reads this, key
    {
      IsSeal(key.seal) && SentBy(noncePrefix, aad, key.log) && nextSend == |key.log|
    }

    constructor (key: AeadKey, noncePrefix: Bytes, aad: Bytes)
      requires IsSeal(key.seal) && key.log == [] && |noncePrefix| == 4
      ensures Sender() && nextReceive == 0 && this.key == key && this.noncePrefix == noncePrefix && this.aad == aad
    {
      this.key, this.noncePrefix, this.aad := key, noncePrefix, aad;
      this.nextSend, this.nextReceive := 0, 0;
    }

    method Encrypt(kind: Kind, payload: Bytes) returns (r: Result<Bytes, CipherError>)
      requires Sender()
      modifies this`nextSend, key
      ensures Sender()
      ensures r.Ok? <==> |payload| + 29 <= 16 * 1024 * 1024 && old(nextSend) < 0xFFFF_FFFF_FFFF_FFFF
      ensures r == Err(SendExhausted) <==> |payload| + 29 <= 16 * 1024 * 1024 && old(nextSend) == 0xFFFF_FFFF_FFFF_FFFF
      ensures var error := EncryptError(old(nextSend), payload);
              if error.Some? then r == Err(error.value) && nextSend == old(nextSend) && key.log == old(key.log)
              else
                var entry := Sealed(SequenceNonce(noncePrefix, old(nextSend)), aad, Plaintext(kind, payload));
                && nextSend == old(nextSend) + 1 && key.log == old(key.log) + [entry]
                && r == Ok(FrameOf(key.seal, old(nextSend), entry))
    {
      if |payload| > MAX_FRAME - FRAME_HEADER_LEN - FRAME_TAG_LEN - 1 {
        return Err(PayloadTooLarge);
      }
      if nextSend == LAST_WORD {
        return Err(SendExhausted);
      }
      var sequence := nextSend;
      nextSend := nextSend + 1;
      SealingExtendsTheLog(noncePrefix, aad, key.log, kind, payload);
      var frame := LayOut(sequence, kind, payload);
      var end := FRAME_HEADER_LEN + 1 + |payload|;
      assert frame[FRAME_HEADER_LEN..end] == Plaintext(kind, payload);
      var tag := key.SealInPlace(SequenceNonce(noncePrefix, sequence), aad, frame, FRAME_HEADER_LEN, end);
      ghost var head, body := frame[..FRAME_HEADER_LEN], frame[FRAME_HEADER_LEN..end];
      forall i | end <= i < frame.Length {
        frame[i] := tag[i - end];
      }
      assert frame[..FRAME_HEADER_LEN] == head && frame[FRAME_HEADER_LEN..end] == body && frame[end..] == tag;
      assert frame[..] == head + (body + tag);
      return Ok(frame[..]);
    }

    // The buffer of `encrypt` before sealing: magic, sequence number, kind, payload, room for the tag.
    method LayOut(sequence: Word64, kind: Kind, payload: Bytes) returns (frame: array<Byte>)
      ensures fresh(frame) && frame.Length == FRAME_HEADER_LEN + 1 + |payload| + FRAME_TAG_LEN
      ensures frame[..FRAME_HEADER_LEN] == FRAME_MAGIC + WordBytes(sequence)
      ensures frame[FRAME_HEADER_LEN..FRAME_HEADER_LEN + 1 + |payload|] == Plaintext(kind, payload)
    {
      var plaintextLen := 1 + |payload|;
      frame := new Byte[FRAME_HEADER_LEN + plaintextLen + FRAME_TAG_LEN](i => 0);
      forall i | 0 <= i < 4 {
        frame[i] := FRAME_MAGIC[i];
      }
      var number := WordBytes(sequence);
      forall i | 4 <= i < FRAME_HEADER_LEN {
        frame[i] := number[i - 4];
      }
      frame[FRAME_HEADER_LEN] := KindByte(kind);
      forall i | FRAME_HEADER_LEN + 1 <= i < FRAME_HEADER_LEN + plaintextLen {
        frame[i] := payload[i - FRAME_HEADER_LEN - 1];
      }
    }

    // The frame is plain, shifted down over its header and cut to the payload, all in its own buffer.
    method DecryptInPlace(frame: array<Byte>) returns (r: Result<(Kind, Bytes), CipherError>)
      requires IsSeal(key.seal) && |noncePrefix| == 4
      modifies this`nextReceive, frame
      ensures (nextReceive, r) == Decrypt(key.seal, key.log, noncePrefix, aad, old(nextReceive), old(frame[..]))
    {
      ghost var whole := frame[..];
      if frame.Length < FRAME_HEADER_LEN + 1 + FRAME_TAG_LEN || frame[..4] != FRAME_MAGIC {
        return Err(InvalidFrame);
      }
      if frame.Length > MAX_FRAME {
        return Err(FrameTooLarge);
      }
      var sequence := WordOf(frame[4..12]);
      assert whole[..4] == frame[..4] && whole[4..12] == frame[4..12] && whole[12..] == frame[12..];
      var expected := nextReceive;
      if sequence != expected {
        return Err(UnexpectedSequence);
      }
      var plaintextLen := key.OpenInPlace(SequenceNonce(noncePrefix, sequence), aad, frame, FRAME_HEADER_LEN);
      if plaintextLen.None? {
        return Err(AuthenticationFailed);
      }
      if expected == LAST_WORD {
        return Err(ReceiveExhausted);
      }
      nextReceive := expected + 1;
      ghost var plaintext := frame[FRAME_HEADER_LEN..FRAME_HEADER_LEN + plaintextLen.value];
      var kindByte := frame[FRAME_HEADER_LEN];
      assert kindByte == plaintext[0];
      if kindByte != KIND_TEXT && kindByte != KIND_BINARY {
        return Err(UnknownKind);
      }
      var payloadLen := plaintextLen.value - 1;
      ghost var payload := frame[FRAME_HEADER_LEN + 1..FRAME_HEADER_LEN + 1 + payloadLen];
      forall i | 0 <= i < payloadLen {
        frame[i] := frame[FRAME_HEADER_LEN + 1 + i];
      }
      assert frame[..payloadLen] == payload == plaintext[1..];
      return Ok((if kindByte == KIND_TEXT then TextFrame else BinaryFrame, frame[..payloadLen]));
    }
  }
}
