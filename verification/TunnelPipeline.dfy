// One direction of the tunnel from end to end: outbound queue, batching, sealing, a hostile wire, opening, dispatch
// (crates/ws-net-gateway/src/ws.rs, crates/ws-net-access/src/gateway.rs, crates/ws-net-common/src/tunnel_crypto.rs).
module TunnelPipeline {
  import opened Basics
  import opened DataFrames
  import opened WriteBatch
  import opened TunnelCipher

  // The session's direction: key, nonce prefix, label.
  datatype Direction = Direction(seal: Seal, prefix: Bytes, aad: Bytes)

  ghost predicate ValidDirection(d: Direction) {
    IsSeal(d.seal) && |d.prefix| == 4
  }

  // `enqueued` and `sent` are histories: everything ever put in the queue, and the messages sealed so far (merged as
  // they were sealed, one for each entry of `log`). `notice` is the closing error text, once sealed.
  datatype Pipe = Pipe(
    enqueued: seq<WsMessage>,
    queue: seq<WsMessage>,
    pending: Option<WsMessage>,
    batch: seq<WsMessage>,
    log: seq<Sealed>,
    sent: seq<WsMessage>,
    notice: Option<Bytes>,
    writing: bool,
    nextReceive: Word64,
    accepted: seq<WsMessage>,
    reading: bool)

  datatype WireItem = Encrypted(frame: Bytes) | Plain | Hangup

  // `dispatched` tells whether the receiver's handling of an accepted message succeeded; if not, its session ends.
  datatype Step =
    | Enqueue(message: WsMessage)
    | ComposeBatch(arrived: nat)
    | SendNext
    | WriterStops
    | WriterCancelled(text: Bytes)
    | Deliver(item: WireItem, dispatched: bool)

  function KindOf(m: WsMessage): Kind {
    if m.Text? then TextFrame else BinaryFrame
  }

  function PayloadOf(m: WsMessage): Bytes {
    match m
    case Text(t) => t
    case Binary(d) => d
    case _ => []
  }

  function AsMessage(kind: Kind, payload: Bytes): WsMessage {
    match kind
    case TextFrame => Text(payload)
    case BinaryFrame => Binary(payload)
  }

  function Start(): Pipe {
    Pipe([], [], None, [], [], [], None, true, 0, [], true)
  }

  ghost predicate Enabled(p: Pipe, step: Step) {
    match step
    case Enqueue(_) => true
    case ComposeBatch(arrived) =>
      p.writing && p.batch == [] && arrived <= |p.queue| && (p.pending.None? ==> arrived > 0)
    case SendNext => p.writing && p.batch != []
    case WriterStops => p.writing
    case WriterCancelled(_) => p.writing
    case Deliver(_, _) => p.reading
  }

  // Sealing a text or binary message under the next number.
  function SealNext(d: Direction, p: Pipe, m: WsMessage): Pipe
    requires |d.prefix| == 4 && |p.log| < LAST_WORD
  {
    p.(log := p.log + [Sealed(SequenceNonce(d.prefix, |p.log|), d.aad, Plaintext(KindOf(m), PayloadOf(m)))],
       sent := p.sent + [m])
  }

  // The message that opens the next batch, and what `try_recv` yields behind it.
  function First(p: Pipe): WsMessage
    requires p.pending.Some? || p.queue != []
  {
    if p.pending.Some? then p.pending.value else p.queue[0]
  }

  function Visible(p: Pipe, arrived: nat): seq<WsMessage>
    requires arrived <= |p.queue| && (p.pending.None? ==> arrived > 0)
  {
    p.queue[(if p.pending.Some? then 0 else 1)..arrived]
  }

  function Apply(d: Direction, p: Pipe, step: Step): Pipe
    requires |d.prefix| == 4 && |p.log| <= LAST_WORD && Enabled(p, step)
  {
    match step
    case Enqueue(m) => p.(enqueued := p.enqueued + [m], queue := p.queue + [m])
    case ComposeBatch(arrived) =>
      var f := Compose(First(p), Visible(p, arrived));
      p.(batch := f.batch.messages, pending := f.pending, queue := f.rest + p.queue[arrived..])
    case SendNext =>
      var m := p.batch[0];
      if m == Close(None) then p.(batch := p.batch[1..])
      else if !(m.Text? || m.Binary?) || EncryptError(|p.log|, PayloadOf(m)).Some? then p.(writing := false)
      else SealNext(d, p, m).(batch := p.batch[1..])
    case WriterStops => p.(writing := false)
    case WriterCancelled(text) =>
      var q := p.(writing := false);
      if EncryptError(|p.log|, text).Some? then q else SealNext(d, q, Text(text)).(notice := Some(text))
    case Deliver(Encrypted(frame), dispatched) =>
      var (next, r) := Decrypt(d.seal, p.log, d.prefix, d.aad, p.nextReceive, frame);
      match r {
        case Ok((kind, payload)) =>
          p.(nextReceive := next, accepted := p.accepted + [AsMessage(kind, payload)], reading := dispatched)
        case Err(_) => p.(nextReceive := next, reading := false)
      }
    case Deliver(_, _) => p.(reading := false)
  }

  // What was sealed apart from the closing notice.
  function Body(p: Pipe): seq<WsMessage> {
    if p.notice.Some? && p.sent != [] then p.sent[..|p.sent| - 1] else p.sent
  }

  ghost predicate SealedAs(p: Pipe, n: nat)
    requires n < |p.log| && n < |p.sent|
  {
    && (p.sent[n].Text? || p.sent[n].Binary?)
    && p.log[n].plaintext == Plaintext(KindOf(p.sent[n]), PayloadOf(p.sent[n]))
  }

  ghost predicate Sealing(d: Direction, p: Pipe) {
    && SentBy(d.prefix, d.aad, p.log)
    && |p.sent| == |p.log|
    && (forall n :: 0 <= n < |p.sent| ==> SealedAs(p, n))
  }

  ghost predicate Receiving(p: Pipe) {
    p.nextReceive == |p.accepted| && p.accepted <= p.sent
  }

  // What the writer still holds, in the order it will go out.
  function Backlog(p: Pipe): seq<Event> {
    Flatten(p.batch) + (Flatten(Optional(p.pending)) + Flatten(p.queue))
  }

  ghost predicate Writing(p: Pipe) {
    && (p.writing ==> p.notice.None? && Flatten(p.sent) + Backlog(p) == Flatten(p.enqueued))
    && (p.notice.Some? ==> p.sent != [] && p.sent[|p.sent| - 1] == Text(p.notice.value))
    && Flatten(Body(p)) <= Flatten(p.enqueued)
  }

  ghost predicate Inv(d: Direction, p: Pipe) {
    ValidDirection(d) && Sealing(d, p) && Receiving(p) && Writing(p)
  }

  lemma SealNextKeepsSealing(d: Direction, p: Pipe, m: WsMessage)
    requires ValidDirection(d) && Sealing(d, p) && (m.Text? || m.Binary?) && EncryptError(|p.log|, PayloadOf(m)).None?
    ensures Sealing(d, SealNext(d, p, m))
  {
    var q := SealNext(d, p, m);
    SealingExtendsTheLog(d.prefix, d.aad, p.log, KindOf(m), PayloadOf(m));
    forall n | 0 <= n < |q.sent| ensures SealedAs(q, n) {
      assert n < |p.sent| ==> SealedAs(p, n);
    }
  }

  lemma SealedUnchanged(d: Direction, p: Pipe, q: Pipe)
    requires Sealing(d, p) && q.log == p.log && q.sent == p.sent
    ensures Sealing(d, q)
  {
    forall n | 0 <= n < |q.sent| ensures SealedAs(q, n) {
      assert SealedAs(p, n);
    }
  }

  lemma OpenWriterWrites(p: Pipe)
    requires p.notice.None? && Flatten(p.sent) + Backlog(p) == Flatten(p.enqueued)
    ensures Writing(p)
  {
  }

  lemma StoppedWriterWrites(p: Pipe)
    requires Writing(p)
    ensures Writing(p.(writing := false))
  {
  }

  lemma EnqueueKeepsInv(d: Direction, p: Pipe, m: WsMessage)
    requires Inv(d, p)
    ensures Inv(d, Apply(d, p, Enqueue(m)))
  {
    var q := Apply(d, p, Enqueue(m));
    SealedUnchanged(d, p, q);
    FlattenSnoc(p.enqueued, m);
    BacklogGrows(p, m);
    if p.writing {
      Regroup(Flatten(p.sent), Backlog(p), Events(m));
      OpenWriterWrites(q);
    } else {
      assert Body(q) == Body(p);
    }
  }

  lemma BacklogGrows(p: Pipe, m: WsMessage)
    ensures Backlog(p.(queue := p.queue + [m], enqueued := p.enqueued + [m])) == Backlog(p) + Events(m)
  {
    FlattenSnoc(p.queue, m);
    Regroup(Flatten(Optional(p.pending)), Flatten(p.queue), Events(m));
    Regroup(Flatten(p.batch), Flatten(Optional(p.pending)) + Flatten(p.queue), Events(m));
  }

  lemma ComposeKeepsInv(d: Direction, p: Pipe, arrived: nat)
    requires Inv(d, p) && Enabled(p, Step.ComposeBatch(arrived))
    ensures Inv(d, Apply(d, p, Step.ComposeBatch(arrived)))
  {
    var q := Apply(d, p, Step.ComposeBatch(arrived));
    SplitQueue(p, arrived);
    ComposeKeepsBacklog(First(p), Visible(p, arrived), p.queue[arrived..], p.pending, p.queue);
    NothingInFront(Flatten(p.batch), Flatten(Optional(p.pending)) + Flatten(p.queue));
    SameBacklog(p, q);
    SealedUnchanged(d, p, q);
  }

  lemma SplitQueue(p: Pipe, arrived: nat)
    requires arrived <= |p.queue| && (p.pending.None? ==> arrived > 0)
    ensures Optional(p.pending) + p.queue == ([First(p)] + Visible(p, arrived)) + p.queue[arrived..]
  {
  }

  lemma NothingInFront<T>(a: seq<T>, b: seq<T>)
    requires a == []
    ensures a + b == b
  {
  }

  lemma SameBacklog(p: Pipe, q: Pipe)
    requires Writing(p) && p.writing && q.notice == p.notice && q.sent == p.sent && q.enqueued == p.enqueued
    requires Backlog(q) == Backlog(p)
    ensures Writing(q)
  {
  }

  lemma SendKeepsInv(d: Direction, p: Pipe)
    requires Inv(d, p) && Enabled(p, SendNext)
    ensures Inv(d, Apply(d, p, SendNext))
  {
    var m := p.batch[0];
    if m == Close(None) {
      HangupKeepsInv(d, p);
    } else if !(m.Text? || m.Binary?) || EncryptError(|p.log|, PayloadOf(m)).Some? {
      SealedUnchanged(d, p, p.(writing := false));
      StoppedWriterWrites(p);
    } else {
      SealedMessageKeepsInv(d, p);
    }
  }

  lemma HangupKeepsInv(d: Direction, p: Pipe)
    requires Inv(d, p) && p.writing && p.batch != [] && p.batch[0] == Close(None)
    ensures Inv(d, p.(batch := p.batch[1..]))
  {
    var q := p.(batch := p.batch[1..]);
    SealedUnchanged(d, p, q);
    FlattenHead(p.batch);
    NothingInFront(Events(Close(None)), Flatten(p.batch[1..]));
    SameBacklog(p, q);
  }

  lemma SealedMessageKeepsInv(d: Direction, p: Pipe)
    requires Inv(d, p) && p.writing && p.batch != []
    requires var m := p.batch[0]; (m.Text? || m.Binary?) && EncryptError(|p.log|, PayloadOf(m)).None?
    ensures Inv(d, SealNext(d, p, p.batch[0]).(batch := p.batch[1..]))
  {
    var m := p.batch[0];
    var sealed := SealNext(d, p, m);
    var q := sealed.(batch := p.batch[1..]);
    SealNextKeepsSealing(d, p, m);
    SealedUnchanged(d, sealed, q);
    SendMovesEvents(p, m);
    assert Backlog(q) == Backlog(p.(batch := p.batch[1..]));
    OpenWriterWrites(q);
  }

  lemma SendMovesEvents(p: Pipe, m: WsMessage)
    requires p.batch != [] && p.batch[0] == m
    ensures Flatten(p.sent + [m]) + Backlog(p.(batch := p.batch[1..])) == Flatten(p.sent) + Backlog(p)
  {
    FlattenHead(p.batch);
    FlattenSnoc(p.sent, m);
    var rest := Flatten(p.batch[1..]);
    var others := Flatten(Optional(p.pending)) + Flatten(p.queue);
    Regroup(Events(m), rest, others);
    Regroup(Flatten(p.sent), Events(m), rest + others);
  }

  // The closing notice joins what was sealed, but not what was sent on behalf of the queue.
  lemma NoticeKeepsWriting(p: Pipe, q: Pipe, text: Bytes)
    requires Writing(p) && p.notice.None?
    requires !q.writing && q.notice == Some(text) && q.sent == p.sent + [Text(text)] && q.enqueued == p.enqueued
    ensures Writing(q)
  {
    assert Body(q) == p.sent;
  }

  lemma NoticeKeepsInv(d: Direction, p: Pipe, text: Bytes)
    requires Inv(d, p) && !p.writing && p.notice.None? && EncryptError(|p.log|, text).None?
    ensures Inv(d, SealNext(d, p, Text(text)).(notice := Some(text)))
  {
    var sealed := SealNext(d, p, Text(text));
    var q := sealed.(notice := Some(text));
    SealNextKeepsSealing(d, p, Text(text));
    SealedUnchanged(d, sealed, q);
    NoticeKeepsWriting(p, q, text);
  }

  lemma CancelKeepsInv(d: Direction, p: Pipe, text: Bytes)
    requires Inv(d, p) && p.writing
    ensures Inv(d, Apply(d, p, WriterCancelled(text)))
  {
    var closed := p.(writing := false);
    WriterStopKeepsInv(d, p);
    if EncryptError(|p.log|, text).None? {
      NoticeKeepsInv(d, closed, text);
      assert Apply(d, p, WriterCancelled(text)) == SealNext(d, closed, Text(text)).(notice := Some(text));
    } else {
      assert Apply(d, p, WriterCancelled(text)) == closed;
    }
  }

  lemma DeliverKeepsInv(d: Direction, p: Pipe, frame: Bytes, dispatched: bool)
    requires Inv(d, p) && p.reading
    ensures Inv(d, Apply(d, p, Deliver(Encrypted(frame), dispatched)))
  {
    var q := Apply(d, p, Deliver(Encrypted(frame), dispatched));
    DeliveryAdvances(d, p, frame, dispatched);
    SealedUnchanged(d, p, q);
    ReceiverOnly(p, q);
  }

  lemma ReceiverOnly(p: Pipe, q: Pipe)
    requires Writing(p) && q == p.(nextReceive := q.nextReceive, accepted := q.accepted, reading := q.reading)
    ensures Writing(q)
  {
  }

  lemma DeliveryAdvances(d: Direction, p: Pipe, frame: Bytes, dispatched: bool)
    requires ValidDirection(d) && Sealing(d, p) && Receiving(p) && p.reading
    ensures Receiving(Apply(d, p, Deliver(Encrypted(frame), dispatched)))
  {
    var n := p.nextReceive;
    AcceptsOnlyTheNextFrame(d.seal, d.prefix, d.aad, p.log, n, frame);
    var (next, r) := Decrypt(d.seal, p.log, d.prefix, d.aad, n, frame);
    if r.Ok? {
      assert SealedAs(p, n);
      assert p.log[n].plaintext[1..] == PayloadOf(p.sent[n]);
      assert AsMessage(r.value.0, r.value.1) == p.sent[n];
    }
  }

  lemma WriterStopKeepsInv(d: Direction, p: Pipe)
    requires Inv(d, p)
    ensures Inv(d, p.(writing := false))
  {
    SealedUnchanged(d, p, p.(writing := false));
    StoppedWriterWrites(p);
  }

  lemma ReaderStopKeepsInv(d: Direction, p: Pipe)
    requires Inv(d, p)
    ensures Inv(d, p.(reading := false))
  {
    SealedUnchanged(d, p, p.(reading := false));
    ReceiverOnly(p, p.(reading := false));
  }

  lemma StepKeepsInv(d: Direction, p: Pipe, step: Step)
    requires Inv(d, p) && Enabled(p, step)
    ensures Inv(d, Apply(d, p, step))
  {
    match step
    case Enqueue(m) => EnqueueKeepsInv(d, p, m);
    case ComposeBatch(arrived) => ComposeKeepsInv(d, p, arrived);
    case SendNext => SendKeepsInv(d, p);
    case WriterStops => WriterStopKeepsInv(d, p);
    case WriterCancelled(text) => CancelKeepsInv(d, p, text);
    case Deliver(item, dispatched) =>
      if item.Encrypted? {
        DeliverKeepsInv(d, p, item.frame, dispatched);
      } else {
        ReaderStopKeepsInv(d, p);
      }
  }

  ghost predicate Run(d: Direction, run: seq<Pipe>, steps: seq<Step>) {
    && ValidDirection(d) && |run| == |steps| + 1 && run[0] == Start()
    && forall i :: 0 <= i < |steps| ==> Stepped(d, run, steps, i)
  }

  // The bound on the log is there for the step to be defined; it holds in every reachable pipe (ReceiverNeverOverruns).
  ghost predicate Stepped(d: Direction, run: seq<Pipe>, steps: seq<Step>, i: nat)
    requires |d.prefix| == 4 && |run| == |steps| + 1 && i < |steps|
  {
    |run[i].log| <= LAST_WORD && Enabled(run[i], steps[i]) && run[i + 1] == Apply(d, run[i], steps[i])
  }

  lemma StartInv(d: Direction)
    requires ValidDirection(d)
    ensures Inv(d, Start())
  {
  }

  lemma {:induction false} ReachableInv(d: Direction, run: seq<Pipe>, steps: seq<Step>, n: nat)
    requires Run(d, run, steps) && n < |run|
    ensures Inv(d, run[n])
  {
    if n == 0 {
      StartInv(d);
    } else {
      ReachableInv(d, run, steps, n - 1);
      assert Stepped(d, run, steps, n - 1);
      StepKeepsInv(d, run[n - 1], steps[n - 1]);
    }
  }

  lemma {:induction false} FlattenPrefix(a: seq<WsMessage>, b: seq<WsMessage>)
    requires a <= b
    ensures Flatten(a) <= Flatten(b)
  {
    assert b == a + b[|a|..];
    FlattenConcat(a, b[|a|..]);
  }

  // In every run, against every wire, what the receiver has dispatched is a prefix of what was enqueued, byte by byte
  // and control text by control text; only the writer's closing notice may follow, and only at the very end, after
  // everything that was sealed before it.
  lemma DispatchIsPrefixOfEnqueued(d: Direction, run: seq<Pipe>, steps: seq<Step>, n: nat)
    requires Run(d, run, steps) && n < |run|
    ensures var p := run[n];
            || Flatten(p.accepted) <= Flatten(p.enqueued)
            || (p.notice.Some? && p.accepted == p.sent
                && Flatten(p.accepted) == Flatten(Body(p)) + [Control(p.notice.value)]
                && Flatten(Body(p)) <= Flatten(p.enqueued))
  {
    ReachableInv(d, run, steps, n);
    var p := run[n];
    if p.notice.None? || |p.accepted| < |p.sent| {
      FlattenPrefix(p.accepted, Body(p));
    } else {
      NoticeComesLast(p);
    }
  }

  lemma NoticeComesLast(p: Pipe)
    requires Receiving(p) && Writing(p) && p.notice.Some? && |p.accepted| >= |p.sent|
    ensures p.accepted == p.sent && Flatten(p.sent) == Flatten(Body(p)) + [Control(p.notice.value)]
  {
  }

  // When the writer has drained its backlog and every frame arrived, nothing is missing either.
  lemma DrainedDeliveryIsComplete(d: Direction, run: seq<Pipe>, steps: seq<Step>, n: nat)
    requires Run(d, run, steps) && n < |run|
    requires run[n].writing && run[n].batch == [] && run[n].pending == None && run[n].queue == []
    requires run[n].nextReceive == |run[n].log|
    ensures Flatten(run[n].accepted) == Flatten(run[n].enqueued)
  {
    ReachableInv(d, run, steps, n);
    assert run[n].accepted == run[n].sent;
  }

  // Both ends run out of sequence numbers together: the receiver never exhausts its counter on a frame of this sender.
  lemma ReceiverNeverOverruns(d: Direction, run: seq<Pipe>, steps: seq<Step>, n: nat, frame: Bytes)
    requires Run(d, run, steps) && n < |run|
    ensures var p := run[n]; var (next, r) := Decrypt(d.seal, p.log, d.prefix, d.aad, p.nextReceive, frame);
            && p.nextReceive <= |p.log| <= LAST_WORD
            && r != Err(ReceiveExhausted) && r != Err(UnknownKind)
            && (r.Ok? <==> next == p.nextReceive + 1)
  {
    ReachableInv(d, run, steps, n);
    var p := run[n];
    AcceptsOnlyTheNextFrame(d.seal, d.prefix, d.aad, p.log, p.nextReceive, frame);
  }

  // ---------------------------------------------------------------- stream by stream

  // The bytes of one stream among the events.
  function StreamBytes(events: seq<Event>, stream: Word64): Bytes {
    if events == [] then []
    else
      var e := events[|events| - 1];
      StreamBytes(events[..|events| - 1], stream) + (if e.Data? && e.stream == stream then [e.byte] else [])
  }

  lemma {:induction false} StreamBytesPrefix(a: seq<Event>, b: seq<Event>, stream: Word64)
    requires a <= b
    ensures StreamBytes(a, stream) <= StreamBytes(b, stream)
  {
    if |a| < |b| {
      StreamBytesPrefix(a, b[..|b| - 1], stream);
    } else {
      assert a == b;
    }
  }

  // Whatever other streams share the tunnel, each stream's receiver gets a prefix of that stream's bytes.
  lemma StreamsArriveInOrder(d: Direction, run: seq<Pipe>, steps: seq<Step>, n: nat, stream: Word64)
    requires Run(d, run, steps) && n < |run|
    ensures StreamBytes(Flatten(run[n].accepted), stream) <= StreamBytes(Flatten(run[n].enqueued), stream)
  {
    DispatchIsPrefixOfEnqueued(d, run, steps, n);
    var p := run[n];
    if Flatten(p.accepted) <= Flatten(p.enqueued) {
      StreamBytesPrefix(Flatten(p.accepted), Flatten(p.enqueued), stream);
    } else {
      var body := Flatten(Body(p));
      assert Flatten(p.accepted)[..|body|] == body;
      StreamBytesPrefix(body, Flatten(p.enqueued), stream);
    }
  }
}
