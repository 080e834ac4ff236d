// The gateway session's tables of stream tasks: who can cancel whom, and whose sender is registered
// (crates/ws-net-gateway/src/ws.rs `handle_text_message`, `SessionCleanup`; crates/ws-net-gateway/src/tcp.rs).
module StreamTables {
  import opened Basics
  import opened DataFrames

  // Identity of one `Arc<StreamCancellation>`.
  type Token = nat

  datatype TaskKind = Tcp | HttpWhole | HttpStreamed

  // A streamed HTTP task removes its body entry when its work is done, and again when it ends. `unregistered`: the
  // task has removed its stream or body entry and only its own cancel entry is left to remove.
  datatype Task = Task(stream: Word64, kind: TaskKind, unregistered: bool)

  // `streams` and `bodies` map a stream id to the task whose channel sender is stored there.
  datatype Tables = Tables(
    cancels: map<Word64, Token>,
    streams: map<Word64, Token>,
    bodies: map<Word64, Token>,
    cancelled: set<Token>,
    tasks: map<Token, Task>,
    spawned: seq<Word64>,
    closing: bool)

  datatype Step =
    | Spawn(stream: Word64, kind: TaskKind)
    | Connected(token: Token)
    | CloseStream(stream: Word64)
    | TcpEof(stream: Word64)
    | RequestEnd(stream: Word64)
    | SendFailed(stream: Word64, body: bool)
    | BodyDone(token: Token)
    | Unregister(token: Token)
    | Finish(token: Token)
    | LeaseCancelled
    | Cleanup

  function Start(): Tables {
    Tables(map[], map[], map[], {}, map[], [], false)
  }

  // Messages are handled only until the session starts to close; tasks go on until they notice.
  predicate Enabled(t: Tables, step: Step) {
    match step
    case Connected(token) => token in t.tasks && t.tasks[token].kind == Tcp && !t.tasks[token].unregistered
    case BodyDone(token) => token in t.tasks && t.tasks[token].kind == HttpStreamed && !t.tasks[token].unregistered
    case Unregister(token) => token in t.tasks && !t.tasks[token].unregistered
    case Finish(token) => token in t.tasks && t.tasks[token].unregistered
    case LeaseCancelled => !t.closing
    case Cleanup => true
    case _ => !t.closing
  }

  function Entry(m: map<Word64, Token>, stream: Word64): set<Token> {
    if stream in m then {m[stream]} else {}
  }

  function Apply(t: Tables, step: Step): Tables
    requires Enabled(t, step)
  {
    match step
    case Spawn(stream, kind) =>
      var token := |t.spawned|;
      t.(bodies := if kind == HttpStreamed then t.bodies[stream := token] else t.bodies,
         cancelled := t.cancelled + Entry(t.cancels, stream),
         cancels := t.cancels[stream := token],
         tasks := t.tasks[token := Task(stream, kind, false)],
         spawned := t.spawned + [stream])
    case Connected(token) => t.(streams := t.streams[t.tasks[token].stream := token])
    case CloseStream(stream) =>
      t.(cancelled := t.cancelled + Entry(t.cancels, stream),
         cancels := t.cancels - {stream},
         streams := t.streams - {stream},
         bodies := t.bodies - {stream})
    case TcpEof(stream) => t.(streams := t.streams - {stream})
    case RequestEnd(stream) => t.(bodies := t.bodies - {stream})
    case SendFailed(stream, body) =>
      if body then t.(bodies := t.bodies - {stream}) else t.(streams := t.streams - {stream})
    case BodyDone(token) => t.(bodies := t.bodies - {t.tasks[token].stream})
    case Unregister(token) =>
      var task := t.tasks[token];
      t.(streams := if task.kind == Tcp then t.streams - {task.stream} else t.streams,
         bodies := if task.kind == HttpStreamed then t.bodies - {task.stream} else t.bodies,
         tasks := t.tasks[token := task.(unregistered := true)])
    case Finish(token) =>
      var stream := t.tasks[token].stream;
      t.(cancels := if stream in t.cancels && t.cancels[stream] == token then t.cancels - {stream} else t.cancels,
         tasks := t.tasks - {token})
    case LeaseCancelled =>
      t.(cancelled := t.cancelled + t.cancels.Values, streams := map[], bodies := map[], closing := true)
    case Cleanup =>
      t.(cancelled := t.cancelled + t.cancels.Values, cancels := map[], streams := map[], bodies := map[],
         closing := true)
  }

  // Where the session sends a data frame: a request body first, else a TCP stream.
  function Receiver(t: Tables, stream: Word64): Option<Token> {
    if stream in t.bodies then Some(t.bodies[stream])
    else if stream in t.streams then Some(t.streams[stream])
    else None
  }

  ghost predicate Tracked(t: Tables, token: Token) {
    token in t.tasks && t.tasks[token].stream in t.cancels && t.cancels[t.tasks[token].stream] == token
  }

  ghost predicate Inv(t: Tables) {
    TasksTracked(t) && SendersOwned(t)
  }

  ghost predicate TasksTracked(t: Tables) {
    && (forall token :: token in t.tasks ==> OwnedBy(t, t.tasks[token].stream, token))
    && (forall token :: token in t.cancelled ==> token < |t.spawned|)
    && (forall token :: token in t.tasks && token !in t.cancelled ==> Tracked(t, token))
    && (forall stream :: stream in t.cancels ==>
         t.cancels[stream] in t.tasks && t.tasks[t.cancels[stream]].stream == stream)
    && (t.closing ==> forall token :: token in t.tasks ==> token in t.cancelled)
  }

  ghost predicate SendersOwned(t: Tables) {
    && (forall stream :: stream in t.streams ==> OwnedBy(t, stream, t.streams[stream]))
    && (forall stream :: stream in t.bodies ==> OwnedBy(t, stream, t.bodies[stream]))
  }

  // `token` was spawned for `stream`.
  ghost predicate OwnedBy(t: Tables, stream: Word64, token: Token) {
    token < |t.spawned| && t.spawned[token] == stream
  }

  lemma StepKeepsTracking(t: Tables, step: Step)
    requires TasksTracked(t) && Enabled(t, step)
    ensures TasksTracked(Apply(t, step))
  {
    var u := Apply(t, step);
    forall token | token in u.tasks
      ensures OwnedBy(u, u.tasks[token].stream, token)
      ensures token !in u.cancelled ==> Tracked(u, token)
      ensures u.closing ==> token in u.cancelled
    {
      if token in t.tasks {
        assert OwnedBy(t, t.tasks[token].stream, token);
        assert token !in t.cancelled ==> Tracked(t, token);
      }
    }
  }

  lemma StepKeepsSenders(t: Tables, step: Step)
    requires TasksTracked(t) && SendersOwned(t) && Enabled(t, step)
    ensures SendersOwned(Apply(t, step))
  {
  }

  lemma StepKeepsInv(t: Tables, step: Step)
    requires Inv(t) && Enabled(t, step)
    ensures Inv(Apply(t, step))
  {
    StepKeepsTracking(t, step);
    StepKeepsSenders(t, step);
  }

  ghost predicate Run(run: seq<Tables>, steps: seq<Step>) {
    && |run| == |steps| + 1 && run[0] == Start()
    && forall i :: 0 <= i < |steps| ==> Stepped(run, steps, i)
  }

  ghost predicate Stepped(run: seq<Tables>, steps: seq<Step>, i: nat)
    requires |run| == |steps| + 1 && i < |steps|
  {
    Enabled(run[i], steps[i]) && run[i + 1] == Apply(run[i], steps[i])
  }

  lemma {:induction false} ReachableInv(run: seq<Tables>, steps: seq<Step>, n: nat)
    requires Run(run, steps) && n < |run|
    ensures Inv(run[n])
  {
    if n > 0 {
      ReachableInv(run, steps, n - 1);
      assert Stepped(run, steps, n - 1);
      StepKeepsInv(run[n - 1], steps[n - 1]);
    }
  }

  // A task that runs uncancelled is the entry a Close would find, and the only such task of its stream; whatever ids
  // are reused and however late old tasks clean up.
  lemma UncancelledTaskIsTheEntry(run: seq<Tables>, steps: seq<Step>, n: nat, a: Token, b: Token)
    requires Run(run, steps) && n < |run|
    requires a in run[n].tasks && a !in run[n].cancelled
    ensures Tracked(run[n], a)
    ensures b in run[n].tasks && b !in run[n].cancelled && run[n].tasks[b].stream == run[n].tasks[a].stream ==> a == b
    ensures !run[n].closing
  {
    ReachableInv(run, steps, n);
    if b in run[n].tasks && b !in run[n].cancelled {
      assert Tracked(run[n], b);
    }
  }

  // A Close for a stream leaves no uncancelled task and no receiver behind, and the end of the session leaves none of
  // any stream.
  lemma CloseCancelsTheStream(run: seq<Tables>, steps: seq<Step>, n: nat, stream: Word64, token: Token)
    requires Run(run, steps) && n < |run| && token in run[n].tasks
    ensures !run[n].closing && run[n].tasks[token].stream == stream ==>
              token in Apply(run[n], CloseStream(stream)).cancelled
    ensures !run[n].closing ==> token in Apply(run[n], LeaseCancelled).cancelled
    ensures token in Apply(run[n], Cleanup).cancelled
    ensures !run[n].closing ==> Receiver(Apply(run[n], CloseStream(stream)), stream).None?
    ensures !run[n].closing ==> Receiver(Apply(run[n], LeaseCancelled), stream).None?
    ensures Receiver(Apply(run[n], Cleanup), stream).None?
  {
    ReachableInv(run, steps, n);
    if token !in run[n].cancelled {
      assert Tracked(run[n], token);
    }
  }

  // ---------------------------------------------------------------- stream senders and fresh ids

  // Data only ever reaches a task spawned for its own stream id; with fresh ids, the only one there ever was.
  lemma DataReachesItsOwnTask(run: seq<Tables>, steps: seq<Step>, n: nat, stream: Word64, other: Token)
    requires Run(run, steps) && n < |run| && Receiver(run[n], stream).Some?
    ensures OwnedBy(run[n], stream, Receiver(run[n], stream).value)
    ensures FreshIds(run[n]) && OwnedBy(run[n], stream, other) ==> other == Receiver(run[n], stream).value
  {
    ReachableInv(run, steps, n);
    if stream in run[n].bodies {
      assert OwnedBy(run[n], stream, run[n].bodies[stream]);
    } else {
      assert OwnedBy(run[n], stream, run[n].streams[stream]);
    }
  }

  // TcpEof and HttpRequestEnd end one direction of one stream: its sender goes, so its receiver comes to its end, while
  // every task, every token and every other stream's receiver stay.
  lemma EndOfOneDirection(t: Tables, stream: Word64, other: Word64, token: Token)
    requires !t.closing
    ensures var u, v := Apply(t, TcpEof(stream)), Apply(t, RequestEnd(stream));
            && stream !in u.streams && stream !in v.bodies
            && Receiver(u, stream) == (if stream in t.bodies then Receiver(t, stream) else None)
            && (other != stream ==> Receiver(u, other) == Receiver(v, other) == Receiver(t, other))
            && (Tracked(u, token) <==> Tracked(t, token)) && (Tracked(v, token) <==> Tracked(t, token))
            && u.cancelled == v.cancelled == t.cancelled
  {
  }

  // A new task is the uncancelled entry of its id, and is where the data goes: at once if it streams a request body,
  // and if not, from the moment it has connected.
  lemma TasksAreReached(run: seq<Tables>, steps: seq<Step>, n: nat, stream: Word64, kind: TaskKind, token: Token)
    requires Run(run, steps) && n < |run|
    ensures Enabled(run[n], Spawn(stream, kind)) ==>
              var t := Apply(run[n], Spawn(stream, kind)); var fresh_ := |run[n].spawned|;
              && Tracked(t, fresh_) && fresh_ !in t.cancelled && t.tasks[fresh_] == Task(stream, kind, false)
              && (stream in run[n].cancels ==> run[n].cancels[stream] in t.cancelled)
              && (kind == HttpStreamed ==> Receiver(t, stream) == Some(fresh_))
    ensures Enabled(run[n], Connected(token)) && run[n].tasks[token].stream !in run[n].bodies ==>
              Receiver(Apply(run[n], Connected(token)), run[n].tasks[token].stream) == Some(token)
  {
    ReachableInv(run, steps, n);
  }

  // An ending task takes its own cancel entry with it and nobody else's.
  lemma FinishTakesItsOwn(t: Tables, token: Token, stream: Word64)
    requires Enabled(t, Finish(token))
    ensures var u := Apply(t, Finish(token)); var own := t.tasks[token].stream;
            && token !in u.tasks && u.cancelled == t.cancelled && u.streams == t.streams && u.bodies == t.bodies
            && (stream in u.cancels <==> stream in t.cancels && !(stream == own && t.cancels[stream] == token))
            && (stream in u.cancels ==> u.cancels[stream] == t.cancels[stream])
  {
  }

  // A sender that failed is dropped, that one only.
  lemma FailedSendersGo(t: Tables, stream: Word64, body: bool, other: Word64)
    requires !t.closing
    ensures var u := Apply(t, SendFailed(stream, body));
            && (if body then stream !in u.bodies && u.streams == t.streams
                else stream !in u.streams && u.bodies == t.bodies)
            && (other != stream ==> Receiver(u, other) == Receiver(t, other))
            && u.cancels == t.cancels && u.cancelled == t.cancelled && u.tasks == t.tasks
  {
  }

  // The access side numbers its streams 1, 2, 3, ...
  ghost predicate FreshIds(t: Tables) {
    forall i, j :: 0 <= i < j < |t.spawned| ==> t.spawned[i] != t.spawned[j]
  }

  // The table a kind of task keeps its sender in.
  function Senders(t: Tables, kind: TaskKind): map<Word64, Token> {
    match kind
    case Tcp => t.streams
    case HttpWhole => map[]
    case HttpStreamed => t.bodies
  }

  // A step by which a task removes the sender under its id, whoever's it is.
  predicate Removes(t: Tables, step: Step, token: Token)
    requires token in t.tasks
  {
    step == Unregister(token) || (step == BodyDone(token) && t.tasks[token].kind == HttpStreamed)
  }

  // A task leaving the table takes another task's sender with it exactly when the sender stored under its id is not
  // its own; this never happens while ids are fresh.
  lemma UnregisterSparesOthers(run: seq<Tables>, steps: seq<Step>, n: nat, step: Step, token: Token, other: Token)
    requires Run(run, steps) && n < |run| && token in run[n].tasks
    requires Removes(run[n], step, token) && Enabled(run[n], step) && other != token
    requires other in Senders(run[n], run[n].tasks[token].kind).Values
    ensures var t := run[n]; var task := t.tasks[token]; var before := Senders(t, task.kind);
            && ((task.stream in before && before[task.stream] == other)
                <==> other !in Senders(Apply(t, step), task.kind).Values)
            && (FreshIds(t) ==> other in Senders(Apply(t, step), task.kind).Values)
  {
    ReachableInv(run, steps, n);
    var t, task := run[n], run[n].tasks[token];
    var before, after := Senders(t, task.kind), Senders(Apply(t, step), task.kind);
    assert after == before - {task.stream};
    assert OwnedBy(t, task.stream, token);
    SendersAreOwned(t, task.kind);
    RemovalTakesOne(t, before, task.stream, other);
  }

  lemma SendersAreOwned(t: Tables, kind: TaskKind)
    requires SendersOwned(t)
    ensures forall stream :: stream in Senders(t, kind) ==> OwnedBy(t, stream, Senders(t, kind)[stream])
  {
  }

  // Each task's sender is stored under its own id only.
  lemma RemovalTakesOne(t: Tables, before: map<Word64, Token>, stream: Word64, other: Token)
    requires forall x :: x in before ==> OwnedBy(t, x, before[x])
    requires other in before.Values
    ensures (stream in before && before[stream] == other) <==> other !in (before - {stream}).Values
  {
    var after := before - {stream};
    var at :| at in before && before[at] == other;
    assert OwnedBy(t, at, other);
    if at != stream {
      assert at in after && after[at] == other;
    } else {
      forall x | x in after ensures after[x] != other {
        assert OwnedBy(t, x, before[x]);
      }
    }
  }

  // With a reused id it does happen: the old task's cleanup removes the new task's sender.
  lemma ReusedIdLosesTheSender()
    ensures var run := ReusedIdRun(); var steps := ReusedIdSteps();
            && Run(run, steps)
            && run[4].streams == map[7 := 1] && 1 !in run[4].cancelled
            && run[5].streams == map[] && 1 in run[5].tasks && 1 !in run[5].cancelled
  {
  }

  function ReusedIdSteps(): seq<Step> {
    [Spawn(7, Tcp), Connected(0), Spawn(7, Tcp), Connected(1), Unregister(0)]
  }

  function ReusedIdRun(): seq<Tables> {
    var a := Apply(Start(), Spawn(7, Tcp));
    var b := Apply(a, Connected(0));
    var c := Apply(b, Spawn(7, Tcp));
    var d := Apply(c, Connected(1));
    [Start(), a, b, c, d, Apply(d, Unregister(0))]
  }

  // ---------------------------------------------------------------- the tables as the session updates them

  // The flag that a task and the session's table share; `token` names the object in the specification.
  class StreamCancellation {
    ghost const token: Token
    var canceled: bool

    constructor (ghost token: Token)
      ensures this.token == token && !canceled
    {
      this.token := token;
      canceled := false;
    }
  }

  // `streams` and `bodies` hold a task's sender, known by the task's flag.
  class SessionTables {
    var cancels: map<Word64, StreamCancellation>
    var streams: map<Word64, StreamCancellation>
    var bodies: map<Word64, StreamCancellation>
    var closing: bool
    ghost var made: seq<StreamCancellation>
    ghost var tasks: map<Token, Task>
    ghost var spawned: seq<Word64>

    ghost function Flags(): set<StreamCancellation>
      reads this
    {
      set c | c in made
    }

    ghost predicate Known(table: map<Word64, StreamCancellation>)
      reads this
    {
      forall stream :: stream in table ==> table[stream] in made
    }

    ghost predicate Valid()
      reads this
    {
      && |made| == |spawned|
      && (forall i :: 0 <= i < |made| ==> made[i].token == i)
      && Known(cancels) && Known(streams) && Known(bodies)
    }

    ghost function Canceled(): set<Token>
      reads this, Flags()
    {
      set c | c in made && c.canceled :: c.token
    }

    ghost function View(): Tables
      reads this, Flags()
    {
      Tables(Tokens(cancels), Tokens(streams), Tokens(bodies), Canceled(), tasks, spawned, closing)
    }

    constructor ()
      ensures Valid() && View() == Start()
    {
      cancels, streams, bodies, closing := map[], map[], map[], false;
      made, tasks, spawned := [], map[], [];
    }

    // `previous.cancel()`, where there is one.
    method CancelEntry(stream: Word64)
      requires Valid()
      modifies Flags()
      ensures Canceled() == old(Canceled()) + Entry(Tokens(cancels), stream)
    {
      if stream in cancels {
        cancels[stream].canceled := true;
        assert cancels[stream] in made;
      }
    }

    // The part common to Open, HttpRequest and HttpRequestStart once the target is authorised.
    method SpawnTask(stream: Word64, kind: TaskKind) returns (cancellation: StreamCancellation)
      requires Valid() && !closing
      modifies this, Flags()
      ensures Valid() && fresh(cancellation) && made == old(made) + [cancellation]
      ensures View() == Apply(old(View()), Spawn(stream, kind))
    {
      CancelEntry(stream);
      cancellation := new StreamCancellation(|made|);
      Enter(stream, kind, cancellation);
    }

    method Enter(stream: Word64, kind: TaskKind, cancellation: StreamCancellation)
      requires Valid() && cancellation !in made && cancellation.token == |made| && !cancellation.canceled
      modifies this
      ensures Valid() && made == old(made) + [cancellation]
      ensures var was := old(View()); var token := |was.spawned|;
              View() == was.(cancels := was.cancels[stream := token],
                             bodies := if kind == HttpStreamed then was.bodies[stream := token] else was.bodies,
                             tasks := was.tasks[token := Task(stream, kind, false)],
                             spawned := was.spawned + [stream])
    {
      TokensStored(cancels, stream, cancellation);
      TokensStored(bodies, stream, cancellation);
      if kind == HttpStreamed {
        bodies := bodies[stream := cancellation];
      }
      cancels := cancels[stream := cancellation];
      Record(stream, kind, cancellation);
    }

    // History only.
    ghost method Record(stream: Word64, kind: TaskKind, cancellation: StreamCancellation)
      requires |made| == |spawned| && (forall i :: 0 <= i < |made| ==> made[i].token == i)
      requires cancellation !in made && cancellation.token == |made| && !cancellation.canceled
      modifies this`made, this`tasks, this`spawned
      ensures made == old(made) + [cancellation] && spawned == old(spawned) + [stream]
      ensures tasks == old(tasks)[cancellation.token := Task(stream, kind, false)]
      ensures Canceled() == old(Canceled())
    {
      made := made + [cancellation];
      tasks := tasks[cancellation.token := Task(stream, kind, false)];
      spawned := spawned + [stream];
    }

    method HandleClose(stream: Word64)
      requires Valid() && !closing
      modifies this, Flags()
      ensures Valid() && made == old(made)
      ensures View() == Apply(old(View()), CloseStream(stream))
    {
      CancelEntry(stream);
      TokensRemoved(cancels, stream);
      TokensRemoved(streams, stream);
      TokensRemoved(bodies, stream);
      DropEntries(stream);
    }

    method DropEntries(stream: Word64)
      requires Valid()
      modifies this`cancels, this`streams, this`bodies
      ensures Valid() && Canceled() == old(Canceled())
      ensures cancels == old(cancels) - {stream}
      ensures streams == old(streams) - {stream} && bodies == old(bodies) - {stream}
    {
      cancels, streams, bodies := cancels - {stream}, streams - {stream}, bodies - {stream};
    }

    // `cancels.remove_if(&stream_id, |_, current| Arc::ptr_eq(current, &cancellation))`
    method FinishTask(stream: Word64, cancellation: StreamCancellation)
      requires Valid() && cancellation in made
      requires Enabled(View(), Finish(cancellation.token)) && tasks[cancellation.token].stream == stream
      modifies this
      ensures Valid() && made == old(made)
      ensures View() == Apply(old(View()), Finish(cancellation.token))
    {
      if stream in cancels && cancels[stream] == cancellation {
        cancels := cancels - {stream};
      }
      tasks := tasks - {cancellation.token};
    }

    // `SessionCleanup::drop`
    method CleanUp()
      requires Valid()
      modifies this, Flags()
      ensures Valid() && made == old(made)
      ensures View() == Apply(old(View()), Cleanup)
    {
      CancelAll();
      cancels, streams, bodies, closing := map[], map[], map[], true;
    }

    method CancelAll()
      requires Valid()
      modifies Flags()
      ensures Canceled() == old(Canceled()) + Tokens(cancels).Values
    {
      var todo := cancels.Keys;
      while todo != {}
        invariant todo <= cancels.Keys
        invariant Canceled() == old(Canceled()) + set s | s in cancels.Keys - todo :: cancels[s].token
      {
        var stream :| stream in todo;
        CancelEntry(stream);
        todo := todo - {stream};
      }
      TokensListed(cancels);
      assert cancels.Keys - todo == cancels.Keys;
    }
  }

  ghost function Tokens(table: map<Word64, StreamCancellation>): map<Word64, Token> {
    map stream | stream in table :: table[stream].token
  }

  lemma TokensStored(table: map<Word64, StreamCancellation>, stream: Word64, c: StreamCancellation)
    ensures Tokens(table[stream := c]) == Tokens(table)[stream := c.token]
  {
  }

  lemma TokensRemoved(table: map<Word64, StreamCancellation>, stream: Word64)
    ensures Tokens(table - {stream}) == Tokens(table) - {stream}
  {
  }

  lemma TokensListed(table: map<Word64, StreamCancellation>)
    ensures Tokens(table).Values == set s | s in table.Keys :: table[s].token
  {
    forall s | s in table.Keys ensures table[s].token in Tokens(table).Values {
      assert s in Tokens(table) && Tokens(table)[s] == table[s].token;
    }
  }
}
