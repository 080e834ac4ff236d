// Binary data frames: an 8-byte big-endian stream id, then the payload (crates/ws-net-common/src/message.rs).
module DataFrames {
  import opened Basics

  const HEADER_LEN := 8

  type Word64 = w: int | 0 <= w < 0x1_0000_0000_0000_0000

  function Pow256(n: nat): (r: nat)
    ensures r > 0
  {
    if n == 0 then 1 else 256 * Pow256(n - 1)
  }

  // `to_be_bytes`: the most significant byte first.
  function BigEndian(value: nat, len: nat): (r: Bytes)
    requires value < Pow256(len)
    ensures |r| == len
  {
    if len == 0 then [] else BigEndian(value / 256, len - 1) + [value % 256]
  }

  // `from_be_bytes`
  function FromBigEndian(bytes: Bytes): (r: nat)
    ensures r < Pow256(|bytes|)
  {
    if bytes == [] then 0 else 256 * FromBigEndian(bytes[..|bytes| - 1]) + bytes[|bytes| - 1]
  }

  lemma {:induction false} BigEndianRoundTrip(value: nat, len: nat)
    requires value < Pow256(len)
    ensures FromBigEndian(BigEndian(value, len)) == value
  {
    if len > 0 {
      BigEndianRoundTrip(value / 256, len - 1);
      assert BigEndian(value, len)[..len - 1] == BigEndian(value / 256, len - 1);
    }
  }

  lemma {:induction false} FromBigEndianRoundTrip(bytes: Bytes)
    ensures BigEndian(FromBigEndian(bytes), |bytes|) == bytes
  {
    if bytes != [] {
      FromBigEndianRoundTrip(bytes[..|bytes| - 1]);
    }
  }

  // The most significant byte first: the order of numbers is the order of their bytes from the front.
  ghost predicate FirstDifference(a: Bytes, b: Bytes, k: nat) {
    k < |a| && k < |b| && a[..k] == b[..k] && a[k] < b[k]
  }

  lemma {:induction false} BigEndianOrder(a: nat, b: nat, len: nat) returns (k: nat)
    requires a < b < Pow256(len)
    ensures FirstDifference(BigEndian(a, len), BigEndian(b, len), k)
  {
    var x, y := BigEndian(a / 256, len - 1), BigEndian(b / 256, len - 1);
    if a / 256 == b / 256 {
      k := len - 1;
      assert BigEndian(a, len)[..k] == x && BigEndian(b, len)[..k] == y;
    } else {
      k := BigEndianOrder(a / 256, b / 256, len - 1);
      assert BigEndian(a, len)[..k] == x[..k] && BigEndian(b, len)[..k] == y[..k];
    }
  }

  lemma Pow256Of8()
    ensures Pow256(8) == 0x1_0000_0000_0000_0000
  {
  }

  function WordBytes(w: Word64): (r: Bytes)
    ensures |r| == 8
  {
    Pow256Of8();
    BigEndian(w, 8)
  }

  function WordOf(bytes: Bytes): Word64
    requires |bytes| == 8
  {
    Pow256Of8();
    FromBigEndian(bytes)
  }

  lemma WordRoundTrip(w: Word64, bytes: Bytes)
    requires |bytes| == 8
    ensures WordOf(WordBytes(w)) == w && WordBytes(WordOf(bytes)) == bytes
  {
    Pow256Of8();
    BigEndianRoundTrip(w, 8);
    FromBigEndianRoundTrip(bytes);
  }

  function EncodeDataFrame(stream: Word64, payload: Bytes): Bytes {
    WordBytes(stream) + payload
  }

  // `decode_data_frame` and `decode_data_frame_owned`; the latter keeps the frame and an offset into it.
  function DecodeDataFrame(frame: Bytes): Option<(Word64, Bytes)> {
    if |frame| < HEADER_LEN then None else Some((WordOf(frame[..HEADER_LEN]), frame[HEADER_LEN..]))
  }

  // Frames and (stream, payload) pairs correspond one to one.
  lemma DataFrameRoundTrip(stream: Word64, payload: Bytes, frame: Bytes)
    ensures DecodeDataFrame(EncodeDataFrame(stream, payload)) == Some((stream, payload))
    ensures DecodeDataFrame(frame).None? <==> |frame| < HEADER_LEN
    ensures DecodeDataFrame(frame).Some? ==>
              EncodeDataFrame(DecodeDataFrame(frame).value.0, DecodeDataFrame(frame).value.1) == frame
  {
    WordRoundTrip(stream, WordBytes(stream));
    assert EncodeDataFrame(stream, payload)[..8] == WordBytes(stream);
    assert EncodeDataFrame(stream, payload)[8..] == payload;
    if |frame| >= 8 {
      WordRoundTrip(0, frame[..8]);
      assert frame == frame[..8] + frame[8..];
    }
  }

  // `try_merge_data_frames`; the result is the extended `current`, or None where it is left alone.
  function TryMerge(current: Bytes, next: Bytes, maxPayload: nat): Option<Bytes> {
    if |current| < HEADER_LEN || |next| < HEADER_LEN then None
    else if current[..HEADER_LEN] != next[..HEADER_LEN] then None
    else if (|current| - HEADER_LEN) + (|next| - HEADER_LEN) > maxPayload then None
    else Some(current + next[HEADER_LEN..])
  }

  // Merging happens exactly for two frames of one stream that fit the limit, and appends the payloads in order.
  lemma MergeAppendsPayloads(current: Bytes, next: Bytes, maxPayload: nat)
    ensures var c := DecodeDataFrame(current); var n := DecodeDataFrame(next);
            var merged := TryMerge(current, next, maxPayload);
            && (merged.Some? <==> c.Some? && n.Some? && c.value.0 == n.value.0
                                  && |c.value.1| + |n.value.1| <= maxPayload)
            && (merged.Some? ==> DecodeDataFrame(merged.value) == Some((c.value.0, c.value.1 + n.value.1)))
  {
    if |current| >= 8 && |next| >= 8 {
      WordRoundTrip(0, current[..8]);
      WordRoundTrip(0, next[..8]);
      var joined := current + next[8..];
      assert joined[..8] == current[..8] && joined[8..] == current[8..] + next[8..];
    }
  }

  // ---------------------------------------------------------------- filling a frame from a socket

  const TCP_BUFFER_SIZE := 0x1_0000

  datatype SocketError = Reset

  // What becomes of one read: it fails, or it moves about as many bytes as it wishes.
  type Attempt = Option<nat>

  // How much a successful read moves: at least one byte unless nothing is left, at most what there is room for.
  function Portion(wish: nat, room: nat, available: nat): (n: nat)
    requires room > 0
    ensures n <= room && n <= available && (n == 0 <==> available == 0)
  {
    var wanted := if wish == 0 then 1 else if wish > room then room else wish;
    if wanted > available then available else wanted
  }

  // How many bytes a run of reads takes off a socket that has `available` to give, and whether it ends in an error.
  // Running out of attempts is `WouldBlock`.
  function Taken(available: nat, room: nat, attempts: seq<Attempt>): (r: (nat, bool))
    ensures r.0 <= room && r.0 <= available
  {
    if room == 0 || attempts == [] then (0, false)
    else if attempts[0].None? then (0, true)
    else
      var n := Portion(attempts[0].value, room, available);
      if n == 0 then (0, false)
      else
        var rest := Taken(available - n, room - n, attempts[1..]);
        (n + rest.0, rest.1)
  }

  // The bytes a socket will still deliver, in order; the peer has finished after them unless a read fails.
  class SocketReader {
    var incoming: Bytes

    constructor (bytes: Bytes)
      ensures incoming == bytes
    {
      incoming := bytes;
    }

    // A failing read takes nothing itself; 0 is end of stream.
    method Read(buffer: array<Byte>, from: nat, to: nat, attempt: Attempt) returns (r: Result<nat, SocketError>)
      requires from < to <= buffer.Length
      modifies this, buffer
      ensures r.Err? <==> attempt.None?
      ensures buffer[..from] == old(buffer[..from])
      ensures r.Err? ==> incoming == old(incoming)
      ensures r.Ok? ==>
                && r.value == Portion(attempt.value, to - from, |old(incoming)|)
                && buffer[from..from + r.value] == old(incoming)[..r.value] && incoming == old(incoming)[r.value..]
    {
      if attempt.None? {
        return Err(Reset);
      }
      var n := Portion(attempt.value, to - from, |incoming|);
      forall i | 0 <= i < n {
        buffer[from + i] := incoming[i];
      }
      incoming := incoming[n..];
      return Ok(n);
    }
  }

  // `read_data_frame` of both relays: every byte taken off the socket is in the frame, or, if a later read of the same
  // call fails, in nothing at all.
  method ReadDataFrame(reader: SocketReader, stream: Word64, attempts: seq<Attempt>)
    returns (r: Result<Option<Bytes>, SocketError>)
    requires attempts != []
    modifies reader
    ensures var (taken, failed) := Taken(|old(reader.incoming)|, TCP_BUFFER_SIZE, attempts);
            && reader.incoming == old(reader.incoming)[taken..]
            && r == if failed then Err(Reset)
                    else if taken == 0 then Ok(None)
                    else Ok(Some(EncodeDataFrame(stream, old(reader.incoming)[..taken])))
  {
    var buffer := NewDataFrameBuffer(stream, TCP_BUFFER_SIZE);
    ghost var all := reader.incoming;
    var first := reader.Read(buffer, HEADER_LEN, buffer.Length, attempts[0]);
    if first.Err? {
      return Err(Reset);
    }
    var payloadLen := first.value;
    if payloadLen == 0 {
      return Ok(None);
    }
    assert buffer[..HEADER_LEN + payloadLen] == buffer[..HEADER_LEN] + buffer[HEADER_LEN..HEADER_LEN + payloadLen];
    var more := FillFrame(reader, buffer, stream, payloadLen, attempts[1..], all);
    if more.Err? {
      return Err(Reset);
    }
    return Ok(Some(buffer[..HEADER_LEN + more.value]));
  }

  // The buffer holds the frame of the first `payloadLen` bytes of `all`, and the socket the rest.
  ghost predicate Framed(reader: SocketReader, buffer: array<Byte>, stream: Word64, payloadLen: nat, all: Bytes)
    reads reader, buffer
  {
    && buffer.Length == HEADER_LEN + TCP_BUFFER_SIZE && payloadLen <= TCP_BUFFER_SIZE && payloadLen <= |all|
    && buffer[..HEADER_LEN + payloadLen] == EncodeDataFrame(stream, all[..payloadLen])
    && reader.incoming == all[payloadLen..]
  }

  // The `try_read` loop; the result is the length of the payload.
  method FillFrame(reader: SocketReader, buffer: array<Byte>, stream: Word64, start: nat, attempts: seq<Attempt>,
                   ghost all: Bytes)
    returns (r: Result<nat, SocketError>)
    requires start <= TCP_BUFFER_SIZE && Framed(reader, buffer, stream, start, all)
    modifies reader, buffer
    ensures var (taken, failed) := Taken(|all| - start, TCP_BUFFER_SIZE - start, attempts);
            && reader.incoming == all[start + taken..]
            && r == (if failed then Err(Reset) else Ok(start + taken))
            && (r.Ok? ==> Framed(reader, buffer, stream, r.value, all))
  {
    var payloadLen, left := start, attempts;
    while payloadLen < TCP_BUFFER_SIZE && left != []
      invariant start <= payloadLen <= TCP_BUFFER_SIZE && Framed(reader, buffer, stream, payloadLen, all)
      invariant TakenFrom(|all|, start, attempts) == TakenFrom(|all|, payloadLen, left)
      decreases |left|
    {
      var n := ReadMore(reader, buffer, stream, payloadLen, left[0], all);
      if n.Err? {
        return Err(Reset);
      }
      if n.value == 0 {
        break;
      }
      payloadLen := payloadLen + n.value;
      left := left[1..];
    }
    return Ok(payloadLen);
  }

  // Where the reads end, counted from the start of the frame's payload.
  function TakenFrom(total: nat, start: nat, attempts: seq<Attempt>): (nat, bool)
    requires start <= total && start <= TCP_BUFFER_SIZE
  {
    var (taken, failed) := Taken(total - start, TCP_BUFFER_SIZE - start, attempts);
    (start + taken, failed)
  }

  method NewDataFrameBuffer(stream: Word64, capacity: nat) returns (buffer: array<Byte>)
    ensures fresh(buffer) && buffer.Length == HEADER_LEN + capacity && buffer[..HEADER_LEN] == WordBytes(stream)
  {
    buffer := new Byte[HEADER_LEN + capacity](i => 0);
    var header := WordBytes(stream);
    forall i | 0 <= i < HEADER_LEN {
      buffer[i] := header[i];
    }
  }

  lemma FrameGrows(stream: Word64, all: Bytes, k: nat, n: nat)
    requires k + n <= |all|
    ensures EncodeDataFrame(stream, all[..k + n]) == EncodeDataFrame(stream, all[..k]) + all[k..][..n]
    ensures all[k..][n..] == all[k + n..]
  {
    assert all[..k + n] == all[..k] + all[k..][..n];
  }

  // One `try_read` behind the bytes already in the frame.
  method ReadMore(reader: SocketReader, buffer: array<Byte>, stream: Word64, payloadLen: nat, attempt: Attempt,
                  ghost all: Bytes)
    returns (r: Result<nat, SocketError>)
    requires payloadLen < TCP_BUFFER_SIZE && Framed(reader, buffer, stream, payloadLen, all)
    modifies reader, buffer
    ensures r.Err? <==> attempt.None?
    ensures r.Err? ==> reader.incoming == old(reader.incoming)
    ensures r.Ok? ==>
              && r.value == Portion(attempt.value, TCP_BUFFER_SIZE - payloadLen, |all| - payloadLen)
              && Framed(reader, buffer, stream, payloadLen + r.value, all)
  {
    var from := HEADER_LEN + payloadLen;
    r := reader.Read(buffer, from, HEADER_LEN + TCP_BUFFER_SIZE, attempt);
    if r.Ok? {
      var n := r.value;
      FrameGrows(stream, all, payloadLen, n);
      assert buffer[..from + n] == buffer[..from] + buffer[from..from + n];
    }
  }

  // The first failing read among the attempts, if the run gets that far, decides: what the reads before it took is lost
  // with it, and it took something exactly when it was not the first and there was something to take.
  lemma FailingReadLoses(available: nat, attempts: seq<Attempt>)
    requires attempts != []
    ensures var (taken, failed) := Taken(available, TCP_BUFFER_SIZE, attempts);
            && (failed ==> None in attempts)
            && (failed ==> taken < TCP_BUFFER_SIZE)
            && (failed ==> (taken > 0 <==> attempts[0].Some?))
            && (attempts[0].None? ==> failed)
  {
    TakenFails(available, TCP_BUFFER_SIZE, attempts);
    assert attempts[0].Some? && available == 0 ==> !Taken(available, TCP_BUFFER_SIZE, attempts).1;
  }

  // None of the reads fails, and each finds something to take and room for it.
  ghost predicate AllTake(available: nat, room: nat, attempts: seq<Attempt>) {
    attempts == [] ||
    (attempts[0].Some? && available > 0 && room > 0 &&
     var n := Portion(attempts[0].value, room, available); AllTake(available - n, room - n, attempts[1..]))
  }

  // Conversely, a failing read that is reached before the end is seen, with room left, always fails the call, whatever
  // would come behind it, and what the reads before it took is lost.
  lemma {:induction false} ReachedFailureFails(available: nat, room: nat, before: seq<Attempt>, behind: seq<Attempt>)
    requires AllTake(available, room, before) && Taken(available, room, before).0 < room
    ensures Taken(available, room, before + [None] + behind) == (Taken(available, room, before).0, true)
  {
    if before == [] {
      assert (before + [None] + behind)[0] == None;
    } else {
      var n := Portion(before[0].value, room, available);
      ReachedFailureFails(available - n, room - n, before[1..], behind);
      assert (before + [None] + behind)[0] == before[0];
      assert (before + [None] + behind)[1..] == before[1..] + [None] + behind;
    }
  }

  function Least(a: nat, b: nat): nat {
    if a < b then a else b
  }

  // Reads that do not fail take at least a byte each while there is room and something to take, and one that wishes
  // for all there is room for takes all it can.
  lemma {:induction false} UnfailingReadsTake(available: nat, room: nat, attempts: seq<Attempt>)
    requires None !in attempts
    ensures !Taken(available, room, attempts).1
    ensures Taken(available, room, attempts).0 >= Least(|attempts|, Least(available, room))
    ensures attempts != [] && attempts[0].value >= room ==> Taken(available, room, attempts).0 == Least(available, room)
  {
    if room > 0 && attempts != [] {
      var n := Portion(attempts[0].value, room, available);
      if n > 0 {
        UnfailingReadsTake(available - n, room - n, attempts[1..]);
      }
    }
  }

  lemma {:induction false} TakenFails(available: nat, room: nat, attempts: seq<Attempt>)
    ensures var (taken, failed) := Taken(available, room, attempts);
            failed ==> None in attempts && taken < room
  {
    if room > 0 && attempts != [] && attempts[0].Some? {
      var n := Portion(attempts[0].value, room, available);
      if n > 0 {
        TakenFails(available - n, room - n, attempts[1..]);
      }
    }
  }
}
