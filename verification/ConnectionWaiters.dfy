// The access side's waiter and stream tables against closing, reopening and answering at the same time
// (crates/ws-net-access/src/gateway.rs `close_gateway_connection`, `handle_gateway_message`, `send_text`;
// crates/ws-net-access/src/tcp.rs and crates/ws-net-access/src/http.rs where they register and withdraw).
module ConnectionWaiters {
  import opened DataFrames

  datatype Kind = TcpStream | OpenWaiter | HttpWaiter | HeadWaiter | BodyStream

  // One table entry; each handler has its own stream id and registers in a table at most once.
  datatype Entry = Entry(kind: Kind, stream: Word64)

  // `Registering`: before its first send is let through. `Sent`: `ensure_gateway_open` passed. `Failing`: it did not,
  // and the handler withdraws its entries. A handler that is aborted stays `Sent` and leaves its entries to the close.
  datatype Handler = Registering | Sent | Failing | Gone

  // A `close_gateway_connection` that did the swap: tables still to visit, and keys collected but not yet removed.
  datatype Closer = Closer(left: set<Kind>, todo: set<Entry>)

  datatype State = State(
    closed: bool,
    entries: set<Entry>,
    born: set<Entry>,
    consumed: set<Entry>,
    handlers: map<Word64, Handler>,
    closers: map<nat, Closer>)

  // `refused`: the send is refused although the connection is open, for a blocked identity or a closed channel.
  datatype Step =
    | Arrive(stream: Word64)
    | Register(e: Entry)
    | CheckOpen(stream: Word64, refused: bool)
    | Withdraw(e: Entry)
    | Leave(stream: Word64)
    | Answer(e: Entry)
    | CloseBegins(k: nat)
    | CloseCollects(k: nat, kind: Kind)
    | CloseRemoves(k: nat, e: Entry)
    | CloseEnds(k: nat)
    | Reopen

  function Start(): State {
    State(true, {}, {}, {}, map[], map[])
  }

  const ALL_KINDS: set<Kind> := {TcpStream, OpenWaiter, HttpWaiter, HeadWaiter, BodyStream}

  ghost predicate Enabled(s: State, step: Step) {
    match step
    case Arrive(stream) => stream !in s.handlers
    case Register(e) => e.stream in s.handlers && s.handlers[e.stream] == Registering && e !in s.born
    case CheckOpen(stream, _) => stream in s.handlers && s.handlers[stream] == Registering
    case Withdraw(e) => e.stream in s.handlers && s.handlers[e.stream] != Gone
    case Leave(stream) =>
      && stream in s.handlers && (s.handlers[stream] == Failing || s.handlers[stream] == Sent)
      && forall e :: e in s.entries ==> e.stream != stream
    case Answer(e) => e in s.entries
    case CloseBegins(k) => k !in s.closers
    case CloseCollects(k, kind) => k in s.closers && kind in s.closers[k].left && s.closers[k].todo == {}
    case CloseRemoves(k, e) => k in s.closers && e in s.closers[k].todo
    case CloseEnds(k) => k in s.closers && s.closers[k] == Closer({}, {})
    case Reopen => s.closed
  }

  // Removing an entry takes its sender out of the table, so whoever removes it is the one who uses or drops it.
  function Consume(s: State, e: Entry): State {
    if e in s.entries then s.(entries := s.entries - {e}, consumed := s.consumed + {e}) else s
  }

  function Apply(s: State, step: Step): State
    requires Enabled(s, step)
  {
    match step
    case Arrive(stream) => s.(handlers := s.handlers[stream := Registering])
    case Register(e) => s.(entries := s.entries + {e}, born := s.born + {e})
    case CheckOpen(stream, refused) =>
      s.(handlers := s.handlers[stream := if s.closed || refused then Failing else Sent])
    case Withdraw(e) => Consume(s, e)
    case Leave(stream) => s.(handlers := s.handlers[stream := Gone])
    case Answer(e) => Consume(s, e)
    case CloseBegins(k) => if s.closed then s else s.(closed := true, closers := s.closers[k := Closer(ALL_KINDS, {})])
    case CloseCollects(k, kind) =>
      s.(closers := s.closers[k := Closer(s.closers[k].left - {kind}, set e | e in s.entries && e.kind == kind)])
    case CloseRemoves(k, e) =>
      Consume(s, e).(closers := s.closers[k := Closer(s.closers[k].left, s.closers[k].todo - {e})])
    case CloseEnds(k) => s.(closers := s.closers - {k})
    case Reopen => s.(closed := false)
  }

  predicate Owes(c: Closer, e: Entry) {
    e.kind in c.left || e in c.todo
  }

  ghost predicate OwedBySomeone(s: State, e: Entry) {
    exists k :: k in s.closers && Owes(s.closers[k], e)
  }

  // The handler has got its first message through, so it counts on being answered or told of the close.
  predicate Counts(s: State, e: Entry) {
    e.stream in s.handlers && s.handlers[e.stream] == Sent
  }

  // The handler has not got through, or has been refused.
  predicate Unsent(s: State, e: Entry) {
    e.stream in s.handlers && (s.handlers[e.stream] == Registering || s.handlers[e.stream] == Failing)
  }

  ghost predicate Inv(s: State) {
    && (forall e :: e in s.entries ==> e in s.born && e !in s.consumed)
    && (forall e :: e in s.entries ==> e.stream in s.handlers && s.handlers[e.stream] != Gone)
    && s.consumed <= s.born
    && (forall e :: e in s.born ==> e.stream in s.handlers)
    && (s.closed ==> forall e :: e in s.entries && Counts(s, e) ==> OwedBySomeone(s, e))
  }

  lemma EveryKindIsVisited(kind: Kind)
    ensures kind in ALL_KINDS
  {
  }

  lemma StepKeepsDebts(s: State, step: Step, e: Entry)
    requires Inv(s) && Enabled(s, step)
    requires var t := Apply(s, step); t.closed && e in t.entries && Counts(t, e)
    ensures OwedBySomeone(Apply(s, step), e)
  {
    var t := Apply(s, step);
    if s.closed {
      assert e in s.entries && Counts(s, e);
      var k :| k in s.closers && Owes(s.closers[k], e);
      assert Owes(t.closers[k], e);
    } else {
      assert step.CloseBegins?;
      EveryKindIsVisited(e.kind);
      assert Owes(t.closers[step.k], e);
    }
  }

  lemma StepKeepsInv(s: State, step: Step)
    requires Inv(s) && Enabled(s, step)
    ensures Inv(Apply(s, step))
  {
    var t := Apply(s, step);
    forall e | t.closed && e in t.entries && Counts(t, e) ensures OwedBySomeone(t, e) {
      StepKeepsDebts(s, step, e);
    }
  }

  ghost predicate Run(run: seq<State>, steps: seq<Step>) {
    && |run| == |steps| + 1 && run[0] == Start()
    && forall i :: 0 <= i < |steps| ==> Stepped(run, steps, i)
  }

  ghost predicate Stepped(run: seq<State>, steps: seq<Step>, i: nat)
    requires |run| == |steps| + 1 && i < |steps|
  {
    Enabled(run[i], steps[i]) && run[i + 1] == Apply(run[i], steps[i])
  }

  lemma {:induction false} ReachableInv(run: seq<State>, steps: seq<Step>, n: nat)
    requires Run(run, steps) && n < |run|
    ensures Inv(run[n])
  {
    if n > 0 {
      ReachableInv(run, steps, n - 1);
      assert Stepped(run, steps, n - 1);
      StepKeepsInv(run[n - 1], steps[n - 1]);
    }
  }

  // No waiter is consumed twice: an entry in a table has never been consumed, and a consumed one never comes back.
  lemma {:induction false} ConsumedOnce(run: seq<State>, steps: seq<Step>, m: nat, n: nat, e: Entry)
    requires Run(run, steps) && m <= n < |run| && e in run[m].consumed
    ensures e in run[n].consumed && e !in run[n].entries
  {
    ReachableInv(run, steps, n);
    if m < n {
      ConsumedOnce(run, steps, m, n - 1, e);
      assert Stepped(run, steps, n - 1);
    }
  }

  // Whatever was registered when a close began is gone once that close has ended, sent or not: until then the close
  // still owes it a visit, and a removed entry never comes back.
  lemma {:induction false} CloseRemovesWhatItFound(run: seq<State>, steps: seq<Step>, m: nat, n: nat, k: nat, e: Entry)
    requires Run(run, steps) && m < n < |run|
    requires steps[m] == CloseBegins(k) && !run[m].closed && e in run[m].entries
    ensures e in run[n].born && (e in run[n].entries ==> k in run[n].closers && Owes(run[n].closers[k], e))
  {
    assert Stepped(run, steps, n - 1);
    if n == m + 1 {
      ReachableInv(run, steps, m);
      EveryKindIsVisited(e.kind);
    } else {
      CloseRemovesWhatItFound(run, steps, m, n - 1, k, e);
      StepKeepsTheVisitOwed(run[n - 1], steps[n - 1], k, e);
    }
  }

  ghost predicate VisitOwed(s: State, k: nat, e: Entry) {
    e in s.born && (e in s.entries ==> k in s.closers && Owes(s.closers[k], e))
  }

  lemma StepKeepsTheVisitOwed(s: State, step: Step, k: nat, e: Entry)
    requires Enabled(s, step) && VisitOwed(s, k, e)
    ensures VisitOwed(Apply(s, step), k, e)
  {
  }

  // With the connection closed and every close finished, whatever is left in the tables belongs to handlers that have
  // not got through; when there are none of those, the load is zero.
  lemma ClosedConnectionOwesNothing(run: seq<State>, steps: seq<Step>, n: nat)
    requires Run(run, steps) && n < |run| && run[n].closed && run[n].closers == map[]
    ensures forall e :: e in run[n].entries ==> Unsent(run[n], e)
    ensures (forall stream :: stream in run[n].handlers ==>
              run[n].handlers[stream] == Sent || run[n].handlers[stream] == Gone)
            ==> |run[n].entries| == 0
  {
    ReachableInv(run, steps, n);
    forall e | e in run[n].entries ensures Unsent(run[n], e) {
      assert Counts(run[n], e) ==> OwedBySomeone(run[n], e);
    }
    if run[n].entries != {} {
      var e :| e in run[n].entries;
      assert Unsent(run[n], e);
    }
  }

  // Those handlers withdraw on their own: on a closed connection the check fails them, and then they can always remove
  // what they registered and leave.
  lemma HandlersWithdraw(run: seq<State>, steps: seq<Step>, n: nat, e: Entry, refused: bool)
    requires Run(run, steps) && n < |run| && run[n].closed && e in run[n].entries
    requires Unsent(run[n], e)
    ensures run[n].handlers[e.stream] == Registering ==>
              Enabled(run[n], CheckOpen(e.stream, refused))
              && Apply(run[n], CheckOpen(e.stream, refused)).handlers[e.stream] == Failing
    ensures Enabled(run[n], Withdraw(e)) && e !in Apply(run[n], Withdraw(e)).entries
  {
  }

  // ---------------------------------------------------------------- what the steps bring about

  // An answered, withdrawn or removed entry is out of its table, and no other entry is touched.
  lemma AnswersTakeOne(s: State, step: Step, e: Entry, other: Entry, k: nat)
    requires Enabled(s, step) && (step == Answer(e) || step == Withdraw(e) || step == CloseRemoves(k, e))
    ensures var t := Apply(s, step);
            && e !in t.entries && (other != e ==> (other in t.entries <==> other in s.entries))
            && (e in s.entries ==> e in t.consumed) && t.born == s.born && t.closed == s.closed
            && t.handlers == s.handlers
  {
  }

  // A registration is in its table, and a handler's first send goes through exactly on an open connection that does not
  // refuse it.
  lemma HandlersDo(s: State, e: Entry, refused: bool)
    requires e.stream in s.handlers
    ensures Enabled(s, Register(e)) ==>
              var t := Apply(s, Register(e)); e in t.entries && e in t.born && s.entries <= t.entries
    ensures Enabled(s, CheckOpen(e.stream, refused)) ==>
              var t := Apply(s, CheckOpen(e.stream, refused));
              && t.entries == s.entries
              && (t.handlers[e.stream] == Sent <==> !s.closed && !refused)
              && (t.handlers[e.stream] == Failing <==> s.closed || refused)
  {
  }

  // Only the close that finds the connection open visits the tables, all of them; a collection lists every entry of its
  // table; a connection reopens exactly from closed.
  lemma ClosesDo(s: State, k: nat, kind: Kind, e: Entry)
    ensures Enabled(s, CloseBegins(k)) ==>
              var t := Apply(s, CloseBegins(k));
              && t.closed && t.entries == s.entries
              && (k in t.closers <==> !s.closed) && (!s.closed ==> kind in t.closers[k].left && t.closers[k].todo == {})
    ensures Enabled(s, CloseCollects(k, kind)) ==>
              var t := Apply(s, CloseCollects(k, kind));
              && (e in t.closers[k].todo <==> e in s.entries && e.kind == kind)
              && t.closers[k].left == s.closers[k].left - {kind} && t.entries == s.entries
    ensures Enabled(s, Reopen) <==> s.closed
    ensures Enabled(s, Reopen) ==> !Apply(s, Reopen).closed
  {
    EveryKindIsVisited(kind);
  }

  // A close always gets to its end: while it is under way it has a next step, and its steps shorten what it has to do.
  lemma ClosesMakeProgress(s: State, k: nat) returns (step: Step)
    requires k in s.closers
    ensures Enabled(s, step)
    ensures var t := Apply(s, step);
            || (step == CloseEnds(k) && k !in t.closers)
            || (k in t.closers && t.closers[k].left < s.closers[k].left)
            || (k in t.closers && t.closers[k].left == s.closers[k].left && t.closers[k].todo < s.closers[k].todo)
  {
    var c := s.closers[k];
    if c.todo != {} {
      var e :| e in c.todo;
      step := CloseRemoves(k, e);
    } else if c.left != {} {
      var kind :| kind in c.left;
      step := CloseCollects(k, kind);
    } else {
      step := CloseEnds(k);
    }
  }
}
