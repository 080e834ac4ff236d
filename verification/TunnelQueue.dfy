// A direction of the tunnel refines a queue: what is put in at one end is taken out at the other in the same order, and
// what is lost is lost from the end on. HalfClose and StreamTeardown build on such a queue.
module TunnelQueue {
  import opened Basics
  import opened DataFrames
  import opened WriteBatch
  import opened TunnelCipher
  import opened TunnelPipeline

  // What has come out, and what is still to come.
  datatype Queue = Queue(out: seq<Event>, content: seq<Event>)

  ghost predicate Puts(a: Queue, b: Queue, events: seq<Event>) {
    b == Queue(a.out, a.content + events)
  }

  ghost predicate Takes(a: Queue, b: Queue, events: seq<Event>) {
    a.content == events + b.content && b.out == a.out + events
  }

  // The closing notice has not been taken out.
  ghost predicate InOrder(p: Pipe) {
    Flatten(p.accepted) <= Flatten(p.enqueued)
  }

  ghost function QueueOf(p: Pipe): Queue
    requires InOrder(p)
  {
    Queue(Flatten(p.accepted), Flatten(p.enqueued)[|Flatten(p.accepted)|..])
  }

  lemma StartIsEmpty()
    ensures InOrder(Start()) && QueueOf(Start()) == Queue([], [])
  {
  }

  // Which histories a step can touch.
  lemma StepHistories(d: Direction, p: Pipe, step: Step)
    requires ValidDirection(d) && |p.log| <= LAST_WORD && Enabled(p, step)
    ensures var q := Apply(d, p, step);
            && q.enqueued == (if step.Enqueue? then p.enqueued + [step.message] else p.enqueued)
            && (!step.Deliver? ==> q.accepted == p.accepted)
            && (step.Deliver? ==>
                 q.accepted == p.accepted || (q.accepted != [] && q.accepted[..|q.accepted| - 1] == p.accepted))
  {
  }

  // Every step of the pipe is a step of the queue: enqueueing puts a message's events in, a successful delivery takes
  // one message's events out, and everything else, merging, sealing and the wire's mischief included, is invisible.
  // The only other delivery is that of the closing notice.
  lemma PipeRefinesQueue(d: Direction, p: Pipe, step: Step)
    requires Inv(d, p) && Enabled(p, step) && InOrder(p)
    ensures var q := Apply(d, p, step);
            && p.accepted <= q.accepted && |q.accepted| <= |p.accepted| + (if step.Deliver? then 1 else 0)
            && (InOrder(q) ==>
                 if step.Enqueue? then Puts(QueueOf(p), QueueOf(q), Events(step.message))
                 else Takes(QueueOf(p), QueueOf(q), Flatten(q.accepted[|p.accepted|..])))
            && (!InOrder(q) ==> step.Deliver? && q.notice.Some? && q.accepted == q.sent)
  {
    var q := Apply(d, p, step);
    StepHistories(d, p, step);
    if step.Enqueue? {
      EnqueuePuts(p, q, step.message);
    } else if InOrder(q) {
      OthersTake(p, q);
    } else {
      StepKeepsInv(d, p, step);
      OutOfOrderIsNotice(d, q);
    }
  }

  lemma EnqueuePuts(p: Pipe, q: Pipe, m: WsMessage)
    requires InOrder(p) && q.enqueued == p.enqueued + [m] && q.accepted == p.accepted
    ensures InOrder(q) && Puts(QueueOf(p), QueueOf(q), Events(m))
  {
    FlattenSnoc(p.enqueued, m);
    PutsAtTheEnd(Flatten(p.accepted), Flatten(p.enqueued), Events(m));
  }

  lemma OthersTake(p: Pipe, q: Pipe)
    requires InOrder(p) && InOrder(q) && q.enqueued == p.enqueued && p.accepted <= q.accepted
    ensures Takes(QueueOf(p), QueueOf(q), Flatten(q.accepted[|p.accepted|..]))
  {
    var taken := q.accepted[|p.accepted|..];
    assert q.accepted == p.accepted + taken;
    FlattenConcat(p.accepted, taken);
    TakesInFront(Flatten(p.accepted), Flatten(taken), Flatten(p.enqueued));
  }

  lemma TakesInFront(out: seq<Event>, events: seq<Event>, all: seq<Event>)
    requires out + events <= all
    ensures out <= all && all[|out|..] == events + all[|out + events|..]
  {
    assert all == (out + events) + all[|out + events|..];
  }

  lemma PutsAtTheEnd(out: seq<Event>, all: seq<Event>, events: seq<Event>)
    requires out <= all
    ensures out <= all + events && (all + events)[|out|..] == all[|out|..] + events
  {
  }

  lemma OutOfOrderIsNotice(d: Direction, p: Pipe)
    requires Inv(d, p) && !InOrder(p)
    ensures p.notice.Some? && p.accepted == p.sent
  {
    if p.notice.None? || |p.accepted| < |p.sent| {
      FlattenPrefix(p.accepted, Body(p));
    }
  }
}
