// What the steps of a tunnel direction bring about, and that an open direction can always deliver everything it was
// given (crates/ws-net-gateway/src/ws.rs, crates/ws-net-access/src/gateway.rs,
// crates/ws-net-common/src/tunnel_crypto.rs).
module TunnelProgress {
  import opened Basics
  import opened DataFrames
  import opened WriteBatch
  import opened TunnelCipher
  import opened TunnelPipeline

  // A text or binary message whose frame fits 16 MiB.
  predicate Fits(m: WsMessage) {
    match m
    case Text(t) => |t| + 29 <= 16 * 1024 * 1024
    case Binary(data) => |data| + 29 <= 16 * 1024 * 1024
    case _ => false
  }

  // Sending a message that fits, with a number left, seals it as it is and goes on; a close without a reason is passed
  // by; anything else, and nothing else, stops the writer.
  lemma SendNextExactly(d: Direction, p: Pipe)
    requires ValidDirection(d) && |p.log| <= LAST_WORD && Enabled(p, SendNext)
    ensures var m := p.batch[0]; var q := Apply(d, p, SendNext);
            var sends := Fits(m) && |p.log| < 0xFFFF_FFFF_FFFF_FFFF;
            && (q.writing <==> sends || m == Close(None))
            && q.sent == (if sends then p.sent + [m] else p.sent)
            && |q.log| == (if sends then |p.log| + 1 else |p.log|)
            && (q.writing ==> q.batch == p.batch[1..])
            && q == p.(writing := q.writing, sent := q.sent, log := q.log, batch := q.batch)
  {
    SendsExactly(|p.log|, PayloadOf(p.batch[0]));
  }

  lemma DeliveryResult(d: Direction, p: Pipe, frame: Bytes, dispatched: bool)
    requires ValidDirection(d) && |p.log| <= LAST_WORD && p.reading
    ensures var q := Apply(d, p, Deliver(Encrypted(frame), dispatched));
            var (next, r) := Decrypt(d.seal, p.log, d.prefix, d.aad, p.nextReceive, frame);
            && (r.Ok? ==> q == p.(nextReceive := next, reading := dispatched,
                                  accepted := p.accepted + [AsMessage(r.value.0, r.value.1)]))
            && (r.Err? ==> q == p.(nextReceive := next, reading := false))
  {
  }

  lemma SealedContent(d: Direction, p: Pipe, n: nat)
    requires Sealing(d, p) && n < |p.log|
    ensures p.log[n].plaintext != []
    ensures AsMessage(Content(p.log[n].plaintext).0, Content(p.log[n].plaintext).1) == p.sent[n]
  {
    assert SealedAs(p, n);
    assert p.log[n].plaintext[1..] == PayloadOf(p.sent[n]);
  }

  // Delivering the frame with the next number hands over the next sealed message.
  lemma NextFrameIsTaken(d: Direction, p: Pipe, dispatched: bool)
    requires Inv(d, p) && p.reading && p.nextReceive < |p.log|
    ensures var frame := FrameOf(d.seal, p.nextReceive, p.log[p.nextReceive]);
            Apply(d, p, Deliver(Encrypted(frame), dispatched))
              == p.(nextReceive := p.nextReceive + 1, reading := dispatched,
                    accepted := p.accepted + [p.sent[p.nextReceive]])
  {
    var n := p.nextReceive;
    var frame := FrameOf(d.seal, n, p.log[n]);
    AcceptsOnlyTheNextFrame(d.seal, d.prefix, d.aad, p.log, n, frame);
    DeliveryResult(d, p, frame, dispatched);
    SealedContent(d, p, n);
  }

  lemma OtherFramesAreRefused(d: Direction, p: Pipe, frame: Bytes, dispatched: bool)
    requires Inv(d, p) && p.reading
    requires p.nextReceive < |p.log| ==> frame != FrameOf(d.seal, p.nextReceive, p.log[p.nextReceive])
    ensures Apply(d, p, Deliver(Encrypted(frame), dispatched)) == p.(reading := false)
  {
    AcceptsOnlyTheNextFrame(d.seal, d.prefix, d.aad, p.log, p.nextReceive, frame);
    DeliveryResult(d, p, frame, dispatched);
  }

  // A plain frame, an altered one and the end of the connection stop the reader and hand over nothing.
  lemma OtherFramesEndTheSession(d: Direction, p: Pipe, item: WireItem, dispatched: bool)
    requires Inv(d, p) && p.reading
    requires item.Encrypted? && p.nextReceive < |p.log| ==>
               item.frame != FrameOf(d.seal, p.nextReceive, p.log[p.nextReceive])
    ensures Apply(d, p, Deliver(item, dispatched)) == p.(reading := false)
  {
    if item.Encrypted? {
      OtherFramesAreRefused(d, p, item.frame, dispatched);
    }
  }

  // A cancelled writer stops, having sealed the notice if it fits and a number is left.
  lemma CancelSendsTheNotice(d: Direction, p: Pipe, text: Bytes)
    requires ValidDirection(d) && |p.log| <= LAST_WORD && Enabled(p, WriterCancelled(text))
    ensures var q := Apply(d, p, WriterCancelled(text));
            && !q.writing
            && (Fits(Text(text)) && |p.log| < 0xFFFF_FFFF_FFFF_FFFF ==>
                 q.notice == Some(text) && q.sent == p.sent + [Text(text)] && |q.log| == |p.log| + 1)
            && (!(Fits(Text(text)) && |p.log| < 0xFFFF_FFFF_FFFF_FFFF) ==> q == p.(writing := false))
  {
    SendsExactly(|p.log|, text);
  }

  // ---------------------------------------------------------------- continuations

  ghost predicate Continues(d: Direction, p: Pipe, steps: seq<Step>, q: Pipe)
    decreases |steps|
  {
    if steps == [] then p == q
    else
      && ValidDirection(d) && |p.log| <= LAST_WORD && Enabled(p, steps[0])
      && Continues(d, Apply(d, p, steps[0]), steps[1..], q)
  }

  lemma {:induction false} ContinuesConcat(d: Direction, p: Pipe, a: seq<Step>, q: Pipe, b: seq<Step>, r: Pipe)
    requires Continues(d, p, a, q) && Continues(d, q, b, r)
    ensures Continues(d, p, a + b, r)
    decreases |a|
  {
    if a == [] {
      assert a + b == b;
    } else {
      ContinuesConcat(d, Apply(d, p, a[0]), a[1..], q, b, r);
      assert (a + b)[1..] == a[1..] + b;
    }
  }

  // ---------------------------------------------------------------- batches of sendable messages

  // What the writer can get rid of.
  predicate Sendable(m: WsMessage) {
    Fits(m) || m == Close(None)
  }

  ghost predicate AllSendable(messages: seq<WsMessage>) {
    forall i :: 0 <= i < |messages| ==> Sendable(messages[i])
  }

  lemma PushKeepsSendable(b: Batch, next: WsMessage)
    requires AllSendable(b.messages) && Sendable(next)
    ensures var (c, o) := Push(b, next);
            AllSendable(c.messages) && |c.messages| + |DeferredPart(o)| <= |b.messages| + 1
  {
    var merged := MergedLast(b, next);
    if merged.Some? {
      MergeAppendsPayloads(Last(b).data, next.data, FRAME_MAX_PAYLOAD);
      assert |merged.value| <= HEADER_LEN + FRAME_MAX_PAYLOAD;
    }
  }

  lemma {:induction false} FillKeepsSendable(b: Batch, visible: seq<WsMessage>)
    requires AllSendable(b.messages) && AllSendable(visible)
    ensures var f := Fill(b, visible);
            && AllSendable(f.batch.messages) && AllSendable(Optional(f.pending)) && AllSendable(f.rest)
            && |f.batch.messages| + |Optional(f.pending)| + |f.rest| <= |b.messages| + |visible|
    decreases |visible|
  {
    if |b.messages| < BATCH_MAX_MESSAGES && visible != [] {
      var (c, o) := Push(b, visible[0]);
      PushKeepsSendable(b, visible[0]);
      if o.Continue? {
        FillKeepsSendable(c, visible[1..]);
      }
    }
  }

  lemma ComposeKeepsSendable(first: WsMessage, visible: seq<WsMessage>)
    requires Sendable(first) && AllSendable(visible)
    ensures var f := Compose(first, visible);
            && AllSendable(f.batch.messages) && AllSendable(Optional(f.pending)) && AllSendable(f.rest)
            && |f.batch.messages| + |Optional(f.pending)| + |f.rest| <= 1 + |visible|
            && f.batch.messages != []
  {
    ComposeIsFaithful(first, visible);
    if first.Binary? {
      FillKeepsSendable(Batch([first], Size(first)), visible);
    }
  }

  // ---------------------------------------------------------------- draining the writer

  function Left(p: Pipe): nat {
    |p.batch| + |Optional(p.pending)| + |p.queue|
  }

  // An open pipe all of whose waiting messages can go out, with numbers enough for them.
  ghost predicate Ready(d: Direction, p: Pipe) {
    && Inv(d, p) && p.writing && p.reading
    && AllSendable(p.batch) && AllSendable(Optional(p.pending)) && AllSendable(p.queue)
    && |p.log| + Left(p) <= LAST_WORD
  }

  lemma WaitingMessagesAreSendable(p: Pipe)
    requires AllSendable(Optional(p.pending)) && AllSendable(p.queue) && (p.pending.Some? || p.queue != [])
    ensures Sendable(First(p)) && AllSendable(Visible(p, |p.queue|))
    ensures 1 + |Visible(p, |p.queue|)| == |Optional(p.pending)| + |p.queue|
  {
    var from := if p.pending.Some? then 0 else 1;
    assert Optional(p.pending) != [] ==> Optional(p.pending)[0] == p.pending.value;
    assert forall i :: 0 <= i < |p.queue| - from ==> p.queue[from..][i] == p.queue[from + i];
    assert Visible(p, |p.queue|) == p.queue[from..];
  }

  lemma ComposeTakesAll(d: Direction, p: Pipe)
    requires ValidDirection(d) && |p.log| <= LAST_WORD && Enabled(p, Step.ComposeBatch(|p.queue|))
    ensures var f := Compose(First(p), Visible(p, |p.queue|));
            Apply(d, p, Step.ComposeBatch(|p.queue|))
              == p.(batch := f.batch.messages, pending := f.pending, queue := f.rest)
  {
    var f := Compose(First(p), Visible(p, |p.queue|));
    assert f.rest + p.queue[|p.queue|..] == f.rest;
  }

  lemma ComposeStaysReady(d: Direction, p: Pipe)
    requires Ready(d, p) && p.batch == [] && Left(p) > 0
    ensures var q := Apply(d, p, Step.ComposeBatch(|p.queue|));
            && Ready(d, q) && Left(q) <= Left(p) && q.batch != []
            && q.enqueued == p.enqueued && q.accepted == p.accepted
  {
    StepKeepsInv(d, p, Step.ComposeBatch(|p.queue|));
    WaitingMessagesAreSendable(p);
    ComposeKeepsSendable(First(p), Visible(p, |p.queue|));
    ComposeTakesAll(d, p);
  }

  lemma SendStaysReady(d: Direction, p: Pipe)
    requires Ready(d, p) && p.batch != []
    ensures var q := Apply(d, p, SendNext);
            Ready(d, q) && Left(q) == Left(p) - 1 && q.enqueued == p.enqueued && q.accepted == p.accepted
  {
    StepKeepsInv(d, p, SendNext);
    SendNextExactly(d, p);
    assert Sendable(p.batch[0]);
  }

  lemma Drain(d: Direction, p: Pipe) returns (steps: seq<Step>, q: Pipe)
    requires Ready(d, p)
    ensures Continues(d, p, steps, q) && Ready(d, q) && Left(q) == 0
    ensures q.enqueued == p.enqueued && q.accepted == p.accepted
    decreases Left(p), p.batch == []
  {
    if Left(p) == 0 {
      steps, q := [], p;
    } else {
      var step := if p.batch == [] then Step.ComposeBatch(|p.queue|) else SendNext;
      if p.batch == [] {
        ComposeStaysReady(d, p);
      } else {
        SendStaysReady(d, p);
      }
      var rest: seq<Step>;
      rest, q := Drain(d, Apply(d, p, step));
      steps := [step] + rest;
      assert steps[1..] == rest;
    }
  }

  lemma DeliverAll(d: Direction, p: Pipe) returns (steps: seq<Step>, q: Pipe)
    requires Inv(d, p) && p.reading
    ensures Continues(d, p, steps, q) && Inv(d, q)
    ensures q == p.(nextReceive := q.nextReceive, accepted := q.accepted) && q.accepted == q.sent
    decreases |p.log| - p.nextReceive
  {
    if p.nextReceive == |p.log| {
      steps, q := [], p;
    } else {
      var step := Deliver(Encrypted(FrameOf(d.seal, p.nextReceive, p.log[p.nextReceive])), true);
      NextFrameIsTaken(d, p, true);
      StepKeepsInv(d, p, step);
      var rest: seq<Step>;
      rest, q := DeliverAll(d, Apply(d, p, step));
      steps := [step] + rest;
      assert steps[1..] == rest;
    }
  }

  // From every reachable state of an open direction whose waiting messages all fit, with numbers enough left, the
  // receiver can still be handed everything that was ever enqueued, and nothing else.
  lemma EverythingCanArrive(d: Direction, run: seq<Pipe>, taken: seq<Step>, n: nat)
    returns (steps: seq<Step>, q: Pipe)
    requires Run(d, run, taken) && n < |run| && run[n].writing && run[n].reading
    requires AllSendable(run[n].batch) && AllSendable(Optional(run[n].pending)) && AllSendable(run[n].queue)
    requires |run[n].log| + Left(run[n]) <= LAST_WORD
    ensures Continues(d, run[n], steps, q) && q.enqueued == run[n].enqueued
    ensures Flatten(q.accepted) == Flatten(q.enqueued) && q.writing && q.reading
  {
    ReachableInv(d, run, taken, n);
    var first, drained := Drain(d, run[n]);
    var second: seq<Step>;
    second, q := DeliverAll(d, drained);
    steps := first + second;
    ContinuesConcat(d, run[n], first, drained, second, q);
    assert Backlog(q) == [];
  }
}
