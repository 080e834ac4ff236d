// The writer's batching of outbound messages (crates/ws-net-gateway/src/ws.rs, crates/ws-net-access/src/gateway.rs;
// the two copies are the same code).
module WriteBatch {
  import opened Basics
  import opened DataFrames

  const BATCH_MAX_MESSAGES := 64
  const BATCH_MAX_BYTES := 0x4_0000
  const FRAME_MAX_PAYLOAD := 0x1_0000

  datatype WsMessage =
    | Text(text: Bytes)
    | Binary(data: Bytes)
    | Ping(data: Bytes)
    | Pong(data: Bytes)
    | Close(reason: Option<Bytes>)

  // What a receiver can observe of the messages: data byte by byte, and control texts whole.
  datatype Event =
    | Data(stream: Word64, byte: Byte)
    | Control(text: Bytes)
    | Malformed(data: Bytes)

  function Size(m: WsMessage): nat {
    match m
    case Text(t) => |t|
    case Binary(d) => |d|
    case Ping(d) => |d|
    case Pong(d) => |d|
    case Close(_) => 0
  }

  function TotalSize(messages: seq<WsMessage>): nat {
    if messages == [] then 0 else TotalSize(messages[..|messages| - 1]) + Size(messages[|messages| - 1])
  }

  function DataEvents(stream: Word64, payload: Bytes): seq<Event> {
    seq(|payload|, i requires 0 <= i < |payload| => Data(stream, payload[i]))
  }

  function BinaryEvents(data: Bytes): seq<Event> {
    match DecodeDataFrame(data)
    case Some((stream, payload)) => DataEvents(stream, payload)
    case None => [Malformed(data)]
  }

  function Events(m: WsMessage): seq<Event> {
    match m
    case Text(t) => [Control(t)]
    case Binary(d) => BinaryEvents(d)
    case _ => []
  }

  function Flatten(messages: seq<WsMessage>): seq<Event> {
    if messages == [] then [] else Flatten(messages[..|messages| - 1]) + Events(messages[|messages| - 1])
  }

  lemma Regroup<T>(a: seq<T>, b: seq<T>, c: seq<T>)
    ensures (a + b) + c == a + (b + c)
  {
  }

  lemma FlattenSnoc(messages: seq<WsMessage>, m: WsMessage)
    ensures Flatten(messages + [m]) == Flatten(messages) + Events(m)
  {
  }

  lemma {:induction false} FlattenConcat(a: seq<WsMessage>, b: seq<WsMessage>)
    ensures Flatten(a + b) == Flatten(a) + Flatten(b)
  {
    if b == [] {
      assert a + b == a && Flatten(b) == [];
    } else {
      var init, last := b[..|b| - 1], b[|b| - 1];
      assert a + b == (a + init) + [last] by {
        assert b == init + [last];
        Regroup(a, init, [last]);
      }
      calc {
        Flatten(a + b);
        { FlattenSnoc(a + init, last); }
        Flatten(a + init) + Events(last);
        { FlattenConcat(a, init); }
        (Flatten(a) + Flatten(init)) + Events(last);
        { Regroup(Flatten(a), Flatten(init), Events(last)); }
        Flatten(a) + (Flatten(init) + Events(last));
        Flatten(a) + Flatten(b);
      }
    }
  }

  lemma FlattenOne(m: WsMessage)
    ensures Flatten([m]) == Events(m)
  {
  }

  lemma FlattenHead(messages: seq<WsMessage>)
    requires messages != []
    ensures Flatten(messages) == Events(messages[0]) + Flatten(messages[1..])
  {
    FlattenConcat([messages[0]], messages[1..]);
    FlattenOne(messages[0]);
    assert messages == [messages[0]] + messages[1..];
  }

  lemma MergedEvents(current: Bytes, next: Bytes)
    requires TryMerge(current, next, FRAME_MAX_PAYLOAD).Some?
    ensures BinaryEvents(TryMerge(current, next, FRAME_MAX_PAYLOAD).value) == BinaryEvents(current) + BinaryEvents(next)
  {
    MergeAppendsPayloads(current, next, FRAME_MAX_PAYLOAD);
    var (stream, p) := DecodeDataFrame(current).value;
    var q := DecodeDataFrame(next).value.1;
    assert DataEvents(stream, p + q) == DataEvents(stream, p) + DataEvents(stream, q);
  }

  // ---------------------------------------------------------------- one push

  datatype Batch = Batch(messages: seq<WsMessage>, bytes: nat)

  datatype Outcome = Continue | Stop | Deferred(message: WsMessage)

  function Last(b: Batch): WsMessage
    requires b.messages != []
  {
    b.messages[|b.messages| - 1]
  }

  // `try_merge_ws_binary` on the last message of the batch.
  function MergedLast(b: Batch, next: WsMessage): Option<Bytes> {
    if b.messages != [] && Last(b).Binary? && next.Binary?
    then TryMerge(Last(b).data, next.data, FRAME_MAX_PAYLOAD) else None
  }

  function Push(b: Batch, next: WsMessage): (Batch, Outcome) {
    var merged := MergedLast(b, next);
    if merged.Some? then
      (Batch(b.messages[|b.messages| - 1 := Binary(merged.value)], b.bytes + (Size(next) - HEADER_LEN)), Continue)
    else if b.bytes + Size(next) > BATCH_MAX_BYTES then
      (b, Deferred(next))
    else
      (Batch(b.messages + [next], b.bytes + Size(next)), if next.Binary? then Continue else Stop)
  }

  function DeferredPart(o: Outcome): seq<WsMessage> {
    if o.Deferred? then [o.message] else []
  }

  // Nothing is lost, duplicated or reordered by a push, merged or not.
  lemma PushKeepsEvents(b: Batch, next: WsMessage)
    ensures var (c, o) := Push(b, next);
            Flatten(c.messages) + Flatten(DeferredPart(o)) == Flatten(b.messages) + Events(next)
  {
    var (c, o) := Push(b, next);
    var merged := MergedLast(b, next);
    FlattenOne(next);
    if merged.Some? {
      MergedEvents(Last(b).data, next.data);
      assert c.messages[..|c.messages| - 1] == b.messages[..|b.messages| - 1];
    } else if !o.Deferred? {
      FlattenConcat(b.messages, [next]);
    }
  }

  // ---------------------------------------------------------------- the accounting

  const MERGED_FRAME_MAX := HEADER_LEN + FRAME_MAX_PAYLOAD

  // `first` is the size of the message the batch was opened with. Only the last message can have outgrown the check
  // made when it was pushed, and then it is a merged data frame.
  ghost predicate Accounted(b: Batch, first: nat) {
    && b.bytes == TotalSize(b.messages)
    && 1 <= |b.messages| <= BATCH_MAX_MESSAGES
    && (|b.messages| == 1 ==> b.bytes <= first || (Last(b).Binary? && b.bytes <= MERGED_FRAME_MAX))
    && (|b.messages| > 1 ==>
         || b.bytes <= BATCH_MAX_BYTES
         || (Last(b).Binary? && HEADER_LEN <= Size(Last(b)) <= MERGED_FRAME_MAX
             && b.bytes - Size(Last(b)) + HEADER_LEN <= BATCH_MAX_BYTES))
  }

  lemma TotalSizeSnoc(messages: seq<WsMessage>, m: WsMessage)
    ensures TotalSize(messages + [m]) == TotalSize(messages) + Size(m)
  {
    assert (messages + [m])[..|messages|] == messages;
  }

  lemma AppendKeepsAccounts(b: Batch, first: nat, next: WsMessage)
    requires Accounted(b, first) && |b.messages| < BATCH_MAX_MESSAGES && b.bytes + Size(next) <= BATCH_MAX_BYTES
    ensures Accounted(Batch(b.messages + [next], b.bytes + Size(next)), first)
  {
    TotalSizeSnoc(b.messages, next);
  }

  lemma PushKeepsAccounts(b: Batch, first: nat, next: WsMessage)
    requires Accounted(b, first) && |b.messages| < BATCH_MAX_MESSAGES
    ensures Accounted(Push(b, next).0, first)
  {
    if MergedLast(b, next).Some? {
      MergeKeepsAccounts(b, first, next);
    } else if b.bytes + Size(next) <= BATCH_MAX_BYTES {
      AppendKeepsAccounts(b, first, next);
    }
  }

  lemma MergeKeepsAccounts(b: Batch, first: nat, next: WsMessage)
    requires Accounted(b, first) && |b.messages| < BATCH_MAX_MESSAGES && MergedLast(b, next).Some?
    ensures Accounted(Push(b, next).0, first)
  {
    var c, n := Push(b, next).0, |b.messages|;
    assert c.messages[..n - 1] == b.messages[..n - 1];
    assert TotalSize(b.messages) == TotalSize(b.messages[..n - 1]) + Size(Last(b));
    assert TotalSize(c.messages) == TotalSize(c.messages[..n - 1]) + Size(Last(c));
  }

  // The true bound: the 256 KiB check can be overshot by one merged frame's payload.
  lemma BatchBound(b: Batch, first: nat)
    requires Accounted(b, first)
    ensures |b.messages| <= 64
    ensures b.bytes == TotalSize(b.messages)
    ensures b.bytes <= if first > 0x5_0000 then first else 0x5_0000
  {
  }

  // The bytes of the messages one after the other, as they go into the frames.
  function Wire(messages: seq<WsMessage>): Bytes {
    if messages == [] then []
    else
      Wire(messages[..|messages| - 1])
      + match messages[|messages| - 1]
        case Text(t) => t
        case Binary(d) => d
        case Ping(d) => d
        case Pong(d) => d
        case Close(_) => []
  }

  lemma {:induction false} TotalSizeIsWireLength(messages: seq<WsMessage>)
    ensures TotalSize(messages) == |Wire(messages)|
  {
    if messages != [] {
      TotalSizeIsWireLength(messages[..|messages| - 1]);
    }
  }

  // What a push does with a message, by the message itself: a data frame behind a data frame of its stream is merged if
  // both payloads fit one frame, whatever the batch weighs; else the message is deferred exactly if it would weigh the
  // batch beyond 256 KiB; else it is appended, and ends the batch unless it is binary.
  lemma PushExactly(b: Batch, next: WsMessage)
    requires b.bytes == TotalSize(b.messages)
    ensures var (c, o) := Push(b, next); var n := |b.messages|; var weight := |Wire(b.messages)| + |Wire([next])|;
            if Mergeable(b, next) then
              && o == Continue && |c.messages| == n && c.messages[..n - 1] == b.messages[..n - 1]
              && c.messages[n - 1] == Binary(b.messages[n - 1].data + next.data[8..])
            else if weight > 256 * 1024 then
              c == b && o == Deferred(next)
            else
              c.messages == b.messages + [next] && (o == Continue <==> next.Binary?) && (o == Stop <==> !next.Binary?)
  {
    TotalSizeIsWireLength(b.messages);
    TotalSizeIsWireLength([next]);
    assert [next][..0] == [];
    if b.messages != [] && Last(b).Binary? && next.Binary? {
      MergeAppendsPayloads(Last(b).data, next.data, FRAME_MAX_PAYLOAD);
    }
  }

  ghost predicate Mergeable(b: Batch, next: WsMessage) {
    && b.messages != [] && Last(b).Binary? && next.Binary?
    && var current, more := DecodeDataFrame(Last(b).data), DecodeDataFrame(next.data);
       && current.Some? && more.Some? && current.value.0 == more.value.0
       && |current.value.1| + |more.value.1| <= 64 * 1024
  }

  // The account is of the bytes themselves.
  lemma BatchWeighsItsBytes(b: Batch, first: nat, i: nat)
    requires Accounted(b, first) && i < |b.messages|
    ensures b.bytes == |Wire(b.messages)|
    ensures b.messages[i].Text? ==> |b.messages[i].text| <= b.bytes
    ensures b.messages[i].Binary? ==> |b.messages[i].data| <= b.bytes
  {
    TotalSizeIsWireLength(b.messages);
    PartOfTheWire(b.messages, i);
  }

  lemma {:induction false} PartOfTheWire(messages: seq<WsMessage>, i: nat)
    requires i < |messages|
    ensures Size(messages[i]) <= |Wire(messages)|
  {
    if i < |messages| - 1 {
      PartOfTheWire(messages[..|messages| - 1], i);
    }
  }

  // ---------------------------------------------------------------- the fill loop

  datatype Filled = Filled(batch: Batch, pending: Option<WsMessage>, rest: seq<WsMessage>)

  // `visible` is what `try_recv` yields before it reports an empty queue.
  function Fill(b: Batch, visible: seq<WsMessage>): Filled
    decreases |visible|
  {
    if |b.messages| >= BATCH_MAX_MESSAGES || visible == [] then Filled(b, None, visible)
    else
      var (c, o) := Push(b, visible[0]);
      match o
      case Continue => Fill(c, visible[1..])
      case Stop => Filled(c, None, visible[1..])
      case Deferred(m) => Filled(c, Some(m), visible[1..])
  }

  function Optional(m: Option<WsMessage>): seq<WsMessage> {
    if m.Some? then [m.value] else []
  }

  lemma {:induction false} FillKeepsEvents(b: Batch, visible: seq<WsMessage>)
    ensures var f := Fill(b, visible);
            Flatten(f.batch.messages) + (Flatten(Optional(f.pending)) + Flatten(f.rest))
              == Flatten(b.messages) + Flatten(visible)
    decreases |visible|
  {
    if |b.messages| < BATCH_MAX_MESSAGES && visible != [] {
      var (c, o) := Push(b, visible[0]);
      var rest := visible[1..];
      PushKeepsEvents(b, visible[0]);
      FlattenHead(visible);
      Regroup(Flatten(b.messages), Events(visible[0]), Flatten(rest));
      Regroup(Flatten(c.messages), Flatten(DeferredPart(o)), Flatten(rest));
      if o.Continue? {
        FillKeepsEvents(c, rest);
      }
    }
  }

  lemma {:induction false} FillKeepsAccounts(b: Batch, first: nat, visible: seq<WsMessage>)
    requires Accounted(b, first)
    ensures Accounted(Fill(b, visible).batch, first)
    decreases |visible|
  {
    if |b.messages| < BATCH_MAX_MESSAGES && visible != [] {
      PushKeepsAccounts(b, first, visible[0]);
      var (c, o) := Push(b, visible[0]);
      if o.Continue? {
        FillKeepsAccounts(c, first, visible[1..]);
      }
    }
  }

  // A batch is opened by one message and filled only behind a binary one.
  function Compose(first: WsMessage, visible: seq<WsMessage>): Filled {
    var b := Batch([first], Size(first));
    if first.Binary? then Fill(b, visible) else Filled(b, None, visible)
  }

  lemma ComposeIsFaithful(first: WsMessage, visible: seq<WsMessage>)
    ensures var f := Compose(first, visible);
            && Flatten(f.batch.messages) + (Flatten(Optional(f.pending)) + Flatten(f.rest))
                 == Events(first) + Flatten(visible)
            && Accounted(f.batch, Size(first))
  {
    FlattenOne(first);
    var b := Batch([first], Size(first));
    assert [first][..0] == [];
    assert TotalSize([first]) == Size(first);
    if first.Binary? {
      FillKeepsEvents(b, visible);
      FillKeepsAccounts(b, Size(first), visible);
    }
  }

  // The fill stops for one of its four reasons only: nothing more has arrived, the batch is full, a message did not
  // fit, or the last one was no data frame.
  lemma {:induction false} FillStopsForCause(b: Batch, visible: seq<WsMessage>)
    requires b.messages != [] && Last(b).Binary?
    ensures var f := Fill(b, visible);
            && f.batch.messages != []
            && (f.rest == [] || |f.batch.messages| >= 64 || f.pending.Some? || !Last(f.batch).Binary?)
    decreases |visible|
  {
    if |b.messages| < BATCH_MAX_MESSAGES && visible != [] {
      var (c, o) := Push(b, visible[0]);
      if o.Continue? {
        FillStopsForCause(c, visible[1..]);
      }
    }
  }

  // A control text is never held back behind further data: it ends its batch, so all before the last are data frames.
  ghost predicate DataUpToLast(messages: seq<WsMessage>) {
    forall i :: 0 <= i < |messages| - 1 ==> messages[i].Binary?
  }

  lemma {:induction false} FillStopsAtText(b: Batch, visible: seq<WsMessage>)
    requires b.messages != [] && forall i :: 0 <= i < |b.messages| ==> b.messages[i].Binary?
    ensures DataUpToLast(Fill(b, visible).batch.messages)
    decreases |visible|
  {
    if |b.messages| < BATCH_MAX_MESSAGES && visible != [] {
      var (c, o) := Push(b, visible[0]);
      if o.Continue? {
        FillStopsAtText(c, visible[1..]);
      }
    }
  }

  lemma TextEndsItsBatch(first: WsMessage, visible: seq<WsMessage>)
    ensures var f := Compose(first, visible);
            && DataUpToLast(f.batch.messages)
            && (!first.Binary? ==> f.batch.messages == [first] && f.pending == None && f.rest == visible)
  {
    if first.Binary? {
      FillStopsAtText(Batch([first], Size(first)), visible);
    }
  }

  // How many of the messages are binary without data behind the header.
  function EmptyFrames(messages: seq<WsMessage>): (n: nat)
    ensures n <= |messages|
  {
    if messages == [] then 0
    else EmptyFrames(messages[1..]) + (if messages[0].Binary? && |messages[0].data| <= HEADER_LEN then 1 else 0)
  }

  // The loop stops even if producers never pause: whatever it consumes without ending the batch either adds one of at
  // most 64 messages, or at least one byte to a bounded total, or is a frame without data.
  lemma {:induction false} FillConsumptionBound(b: Batch, first: nat, visible: seq<WsMessage>)
    requires Accounted(b, first)
    ensures var f := Fill(b, visible);
            && |f.rest| <= |visible|
            && |visible| - |f.rest| + b.bytes + |b.messages|
                 <= (if first > 0x5_0000 then first else 0x5_0000) + 65 + (EmptyFrames(visible) - EmptyFrames(f.rest))
    decreases |visible|
  {
    BatchBound(b, first);
    if |b.messages| < BATCH_MAX_MESSAGES && visible != [] {
      var (c, o) := Push(b, visible[0]);
      PushKeepsAccounts(b, first, visible[0]);
      if o.Continue? {
        FillConsumptionBound(c, first, visible[1..]);
      } else {
        BatchBound(c, first);
      }
    }
  }

  // The last term is needed: frames without data merge into one of their kind and leave no trace, however many come.
  lemma {:induction false} EmptyFramesNeverFill(stream: Word64, n: nat)
    ensures var empty := Binary(EncodeDataFrame(stream, []));
            var b := Batch([empty], Size(empty));
            Fill(b, seq(n, i => empty)) == Filled(b, None, [])
  {
    var empty := Binary(EncodeDataFrame(stream, []));
    var b := Batch([empty], Size(empty));
    if n > 0 {
      EmptyFramesNeverFill(stream, n - 1);
      assert seq(n, i => empty)[1..] == seq(n - 1, i => empty);
      DataFrameRoundTrip(stream, [], empty.data);
      assert empty.data + empty.data[HEADER_LEN..] == empty.data;
      assert TryMerge(empty.data, empty.data, FRAME_MAX_PAYLOAD) == Some(empty.data);
      assert b.messages[0 := empty] == b.messages;
    }
  }

  // The bound is reached: three frames fill the batch to 320 KiB, past the 256 KiB constant.
  lemma BatchLimitIsOvershot(big: Bytes, payload: Bytes)
    requires |big| == BATCH_MAX_BYTES - 2 * HEADER_LEN && |payload| == FRAME_MAX_PAYLOAD
    ensures var f := Compose(Binary(EncodeDataFrame(1, big)),
                             [Binary(EncodeDataFrame(2, [])), Binary(EncodeDataFrame(2, payload))]);
            f.batch.bytes == 0x5_0000 && f.pending == None && f.rest == []
  {
    var one, two, three := EncodeDataFrame(1, big), EncodeDataFrame(2, []), EncodeDataFrame(2, payload);
    DataFrameRoundTrip(1, big, one);
    DataFrameRoundTrip(2, [], two);
    DataFrameRoundTrip(2, payload, three);
    MergeAppendsPayloads(one, two, FRAME_MAX_PAYLOAD);
    MergeAppendsPayloads(two, three, FRAME_MAX_PAYLOAD);
    var b0 := Batch([Binary(one)], Size(Binary(one)));
    var b1 := Push(b0, Binary(two)).0;
    assert Push(b0, Binary(two)).1 == Continue;
    assert Last(b1) == Binary(two);
    var b2 := Push(b1, Binary(three)).0;
    assert Push(b1, Binary(three)).1 == Continue;
    assert [Binary(two), Binary(three)][1..] == [Binary(three)];
    assert [Binary(three)][1..] == [];
    assert Fill(b2, []) == Filled(b2, None, []);
    assert Fill(b1, [Binary(three)]) == Fill(b2, []);
  }

  // Ordinary traffic comes within one byte of that: four streams' frames, then a stream that sends a single byte and,
  // right behind it, a frame that just fits the merge.
  lemma OrdinaryTrafficOvershoots(full: Bytes, fourth: Bytes, byte: Byte, last: Bytes)
    requires |full| == FRAME_MAX_PAYLOAD && |fourth| == 65495 && |last| == FRAME_MAX_PAYLOAD - 1
    ensures var f := Compose(Binary(EncodeDataFrame(1, full)),
                             [Binary(EncodeDataFrame(2, full)), Binary(EncodeDataFrame(3, full)),
                              Binary(EncodeDataFrame(4, fourth)), Binary(EncodeDataFrame(5, [byte])),
                              Binary(EncodeDataFrame(5, last))]);
            f.batch.bytes == 0x5_0000 - 1 && f.pending == None && f.rest == []
  {
    var m1, m2, m3 := EncodeDataFrame(1, full), EncodeDataFrame(2, full), EncodeDataFrame(3, full);
    var m4, m5, m6 := EncodeDataFrame(4, fourth), EncodeDataFrame(5, [byte]), EncodeDataFrame(5, last);
    var b1 := Batch([Binary(m1)], Size(Binary(m1)));
    var b2 := AppendedFrame(b1, 1, full, 2, full);
    var b3 := AppendedFrame(b2, 2, full, 3, full);
    var b4 := AppendedFrame(b3, 3, full, 4, fourth);
    var b5 := AppendedFrame(b4, 4, fourth, 5, [byte]);
    var b6 := MergedFrame(b5, 5, [byte], last);
    FillOne(b5, Binary(m6), []);
    FillOne(b4, Binary(m5), [Binary(m6)]);
    FillOne(b3, Binary(m4), [Binary(m5), Binary(m6)]);
    FillOne(b2, Binary(m3), [Binary(m4), Binary(m5), Binary(m6)]);
    FillOne(b1, Binary(m2), [Binary(m3), Binary(m4), Binary(m5), Binary(m6)]);
  }

  // A frame of another stream that still fits the byte limit is appended.
  lemma AppendedFrame(b: Batch, stream: Word64, payload: Bytes, other: Word64, next: Bytes) returns (c: Batch)
    requires b.messages != [] && Last(b) == Binary(EncodeDataFrame(stream, payload)) && stream != other
    requires b.bytes + HEADER_LEN + |next| <= BATCH_MAX_BYTES
    ensures Push(b, Binary(EncodeDataFrame(other, next))) == (c, Continue)
    ensures c.bytes == b.bytes + HEADER_LEN + |next| && |c.messages| == |b.messages| + 1
    ensures Last(c) == Binary(EncodeDataFrame(other, next))
  {
    DataFrameRoundTrip(stream, payload, EncodeDataFrame(stream, payload));
    DataFrameRoundTrip(other, next, EncodeDataFrame(other, next));
    MergeAppendsPayloads(EncodeDataFrame(stream, payload), EncodeDataFrame(other, next), FRAME_MAX_PAYLOAD);
    c := Push(b, Binary(EncodeDataFrame(other, next))).0;
  }

  // A frame of the last message's stream is merged whatever the byte count.
  lemma MergedFrame(b: Batch, stream: Word64, payload: Bytes, next: Bytes) returns (c: Batch)
    requires b.messages != [] && Last(b) == Binary(EncodeDataFrame(stream, payload))
    requires |payload| + |next| <= FRAME_MAX_PAYLOAD
    ensures Push(b, Binary(EncodeDataFrame(stream, next))) == (c, Continue)
    ensures c.bytes == b.bytes + |next| && |c.messages| == |b.messages|
  {
    DataFrameRoundTrip(stream, payload, EncodeDataFrame(stream, payload));
    DataFrameRoundTrip(stream, next, EncodeDataFrame(stream, next));
    MergeAppendsPayloads(EncodeDataFrame(stream, payload), EncodeDataFrame(stream, next), FRAME_MAX_PAYLOAD);
    c := Push(b, Binary(EncodeDataFrame(stream, next))).0;
  }

  lemma FillOne(b: Batch, next: WsMessage, rest: seq<WsMessage>)
    requires |b.messages| < BATCH_MAX_MESSAGES && Push(b, next).1 == Continue
    ensures Fill(b, [next] + rest) == Fill(Push(b, next).0, rest)
  {
    assert ([next] + rest)[1..] == rest;
  }

  // ---------------------------------------------------------------- the loop itself

  class BatchWriter {
    var queue: seq<WsMessage>
    var pending: Option<WsMessage>
    var batch: seq<WsMessage>
    var batchBytes: nat

    constructor ()
      ensures queue == [] && pending == None && batch == [] && batchBytes == 0
    {
      queue, pending, batch, batchBytes := [], None, [], 0;
    }

    ghost function View(): Batch
      reads this
    {
      Batch(batch, batchBytes)
    }

    method Enqueue(message: WsMessage)
      modifies this`queue
      ensures queue == old(queue) + [message]
    {
      queue := queue + [message];
    }

    // `push_ws_message`
    method PushWsMessage(next: WsMessage) returns (r: Outcome)
      modifies this`batch, this`batchBytes
      ensures (View(), r) == Push(old(View()), next)
    {
      var nextBytes := Size(next);
      if batch != [] && batch[|batch| - 1].Binary? && next.Binary? {
        var merged := TryMerge(batch[|batch| - 1].data, next.data, FRAME_MAX_PAYLOAD);
        if merged.Some? {
          batch := batch[|batch| - 1 := Binary(merged.value)];
          batchBytes := batchBytes + (nextBytes - HEADER_LEN);
          return Continue;
        }
      }
      if batchBytes + nextBytes > BATCH_MAX_BYTES {
        return Deferred(next);
      }
      var stop := !next.Binary?;
      batchBytes := batchBytes + nextBytes;
      batch := batch + [next];
      return if stop then Stop else Continue;
    }

    // One turn of the writer up to the point of sending: the batch is complete, and a message that did not fit
    // opens the next one. `arrived` messages are in the queue before `try_recv` finds it empty.
    method ComposeBatch(arrived: nat)
      requires if pending.Some? then arrived <= |queue| else 1 <= arrived <= |queue|
      modifies this
      ensures var first := if old(pending).Some? then old(pending).value else old(queue)[0];
              var visible := old(queue)[(if old(pending).Some? then 0 else 1)..arrived];
              var f := Compose(first, visible);
              && View() == f.batch && pending == f.pending && queue == f.rest + old(queue)[arrived..]
              && Accounted(View(), Size(first))
      ensures Flatten(batch) + (Flatten(Optional(pending)) + Flatten(queue))
                == Flatten(Optional(old(pending))) + Flatten(old(queue))
    {
      ghost var waiting, all := pending, queue;
      var first: WsMessage;
      var visible := queue[..arrived];
      if pending.Some? {
        first := pending.value;
        pending := None;
      } else {
        first := queue[0];
        visible := queue[1..arrived];
      }
      assert Optional(waiting) + all == ([first] + visible) + all[arrived..];
      ComposeIsFaithful(first, visible);
      ComposeKeepsBacklog(first, visible, all[arrived..], waiting, all);
      var rest := OpenBatch(first, visible);
      queue := rest + queue[arrived..];
    }

    // A batch is opened by one message and filled behind a binary one only.
    method OpenBatch(first: WsMessage, visible: seq<WsMessage>) returns (rest: seq<WsMessage>)
      requires pending == None
      modifies this`batch, this`batchBytes, this`pending
      ensures Filled(View(), pending, rest) == Compose(first, visible)
    {
      batch, batchBytes := [first], Size(first);
      rest := visible;
      if first.Binary? {
        rest := FillBatch(visible);
      }
    }

    method FillBatch(visible: seq<WsMessage>) returns (rest: seq<WsMessage>)
      requires batch != [] && pending == None
      modifies this`batch, this`batchBytes, this`pending
      ensures Filled(View(), pending, rest) == Fill(old(View()), visible)
    {
      rest := visible;
      while |batch| < BATCH_MAX_MESSAGES && rest != []
        invariant pending == None && Fill(View(), rest) == Fill(old(View()), visible)
        decreases |rest|
      {
        var next := rest[0];
        rest := rest[1..];
        var outcome := PushWsMessage(next);
        match outcome
        case Continue =>
        case Stop => return;
        case Deferred(message) =>
          pending := Some(message);
          return;
      }
    }
  }

  // What goes into one batch, waits behind it or is left in the queue is what waited and was in the queue before.
  lemma ComposeKeepsBacklog(first: WsMessage, visible: seq<WsMessage>, later: seq<WsMessage>,
                            pending: Option<WsMessage>, queue: seq<WsMessage>)
    requires Optional(pending) + queue == ([first] + visible) + later
    ensures var f := Compose(first, visible);
            Flatten(f.batch.messages) + (Flatten(Optional(f.pending)) + Flatten(f.rest + later))
              == Flatten(Optional(pending)) + Flatten(queue)
  {
    var f := Compose(first, visible);
    ComposeIsFaithful(first, visible);
    EventsAccountedFor(first, visible, later, f.batch.messages, f.pending, f.rest);
    FlattenConcat(Optional(pending), queue);
  }

  lemma EventsAccountedFor(first: WsMessage, visible: seq<WsMessage>, later: seq<WsMessage>,
                           batch: seq<WsMessage>, pending: Option<WsMessage>, rest: seq<WsMessage>)
    requires Flatten(batch) + (Flatten(Optional(pending)) + Flatten(rest)) == Events(first) + Flatten(visible)
    ensures Flatten(batch) + (Flatten(Optional(pending)) + Flatten(rest + later))
              == Flatten(([first] + visible) + later)
  {
    FlattenConcat([first] + visible, later);
    FlattenHead([first] + visible);
    assert ([first] + visible)[1..] == visible;
    FlattenConcat(rest, later);
    Regroup(Flatten(Optional(pending)), Flatten(rest), Flatten(later));
    Regroup(Flatten(batch), Flatten(Optional(pending)) + Flatten(rest), Flatten(later));
  }
}
