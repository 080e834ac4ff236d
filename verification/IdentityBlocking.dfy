// Blocking an access identity after a terminal error, against connections opening, closing, being created and being
// dropped at the same time (crates/ws-net-access/src/gateway.rs `start_gateway_connection`, the session-open block of
// `run_gateway_session`, `stop_identity`, `close_gateway_connection`; crates/ws-net-access/src/app.rs `identity`).
module IdentityBlocking {
  import opened Basics

  datatype Connection = Connection(closed: bool, stopped: bool)

  // The one `stop_identity` call that got past the check of `blocked`: before its snapshot of the connection list, then
  // working through the snapshot, then finished.
  datatype Stop = NotStarted | Begun | Closing(todo: set<nat>) | Done

  // `live`: the connections that still exist; `listed`: the identity's list of weak references; `opening`: the
  // connection whose session is being opened under the lock of `blocked`, past its two checks.
  datatype State = State(blocked: bool, live: map<nat, Connection>, listed: set<nat>, opening: Option<nat>, stop: Stop)

  datatype Step =
    | Create(c: nat)
    | OpenChecks(c: nat)
    | OpenStores
    | Close(c: nat)
    | SetStopped(c: nat)
    | DropConnection(c: nat)
    | StopBegins
    | StopTakesList
    | StopCloses(c: nat)
    | StopEnds

  function Start(): State {
    State(false, map[], {}, None, NotStarted)
  }

  // `SetStopped` and `Close` need no lock: `stop_gateway_connections` and a failing send take these steps at any time.
  ghost predicate Enabled(s: State, step: Step) {
    match step
    case Create(c) => c !in s.live && c !in s.listed
    case OpenChecks(c) => c in s.live && s.opening == None && !s.blocked && !s.live[c].stopped
    case OpenStores => s.opening.Some?
    case Close(c) => c in s.live
    case SetStopped(c) => c in s.live
    case DropConnection(c) => c in s.live && s.live[c].closed && s.opening != Some(c)
    case StopBegins => s.opening == None && !s.blocked
    case StopTakesList => s.stop == Begun
    case StopCloses(c) => s.stop.Closing? && c in s.stop.todo
    case StopEnds => s.stop == Closing({})
  }

  // A connection enters the list as it is created, closed; dead references are pruned first.
  function Apply(s: State, step: Step): State
    requires Enabled(s, step)
  {
    match step
    case Create(c) => s.(live := s.live[c := Connection(true, false)], listed := (s.listed * s.live.Keys) + {c})
    case OpenChecks(c) => s.(opening := Some(c))
    case OpenStores =>
      var c := s.opening.value;
      s.(opening := None, live := if c in s.live then s.live[c := s.live[c].(closed := false)] else s.live)
    case Close(c) => s.(live := s.live[c := s.live[c].(closed := true)])
    case SetStopped(c) => s.(live := s.live[c := s.live[c].(stopped := true)])
    case DropConnection(c) =>
      s.(live := s.live - {c}, stop := if s.stop.Closing? then Closing(s.stop.todo - {c}) else s.stop)
    case StopBegins => s.(blocked := true, stop := Begun)
    case StopTakesList => s.(stop := Closing(s.listed * s.live.Keys))
    case StopCloses(c) =>
      s.(live := if c in s.live then s.live[c := Connection(true, true)] else s.live,
         stop := Closing(s.stop.todo - {c}))
    case StopEnds => s.(stop := Done)
  }

  ghost predicate Open(s: State, c: nat) {
    c in s.live && !s.live[c].closed
  }

  ghost predicate Inv(s: State) {
    && s.live.Keys <= s.listed
    && (s.blocked <==> s.stop != NotStarted)
    && (s.blocked ==> s.opening == None)
    && (s.opening.Some? ==> s.opening.value in s.live)
    && (s.stop.Closing? ==> forall c :: Open(s, c) ==> c in s.stop.todo)
    && (s.stop == Done ==> forall c :: !Open(s, c))
  }

  lemma StepKeepsInv(s: State, step: Step)
    requires Inv(s) && Enabled(s, step)
    ensures Inv(Apply(s, step))
  {
    var t := Apply(s, step);
    forall c | Open(t, c)
      ensures t.stop.Closing? ==> c in t.stop.todo
      ensures t.stop != Done
    {
      assert step.StopEnds? ==> !Open(s, c);
      assert step != StopTakesList ==> Open(s, c) || !t.blocked;
    }
  }

  ghost predicate Run(run: seq<State>, steps: seq<Step>) {
    && |run| == |steps| + 1 && run[0] == Start()
    && forall i :: 0 <= i < |steps| ==> Stepped(run, steps, i)
  }

  ghost predicate Stepped(run: seq<State>, steps: seq<Step>, i: nat)
    requires |run| == |steps| + 1 && i < |steps|
  {
    Enabled(run[i], steps[i]) && run[i + 1] == Apply(run[i], steps[i])
  }

  lemma {:induction false} ReachableInv(run: seq<State>, steps: seq<Step>, n: nat)
    requires Run(run, steps) && n < |run|
    ensures Inv(run[n])
  {
    if n > 0 {
      ReachableInv(run, steps, n - 1);
      assert Stepped(run, steps, n - 1);
      StepKeepsInv(run[n - 1], steps[n - 1]);
    }
  }

  // Once an identity is blocked, a connection of it that is still open is one the stop in progress has yet to close.
  lemma OpenWhileBlockedIsOnTheList(run: seq<State>, steps: seq<Step>, n: nat, c: nat)
    requires Run(run, steps) && n < |run| && run[n].blocked && Open(run[n], c)
    ensures (run[n].stop == Begun && c in run[n].listed) || (run[n].stop.Closing? && c in run[n].stop.todo)
  {
    ReachableInv(run, steps, n);
  }

  // When that stop has finished, every connection is closed and stays closed, also the ones created later.
  lemma {:induction false} BlockedForGood(run: seq<State>, steps: seq<Step>, m: nat, n: nat, c: nat)
    requires Run(run, steps) && m <= n < |run| && run[m].stop == Done
    ensures run[n].blocked && run[n].stop == Done && !Open(run[n], c)
  {
    ReachableInv(run, steps, n);
    if m < n {
      BlockedForGood(run, steps, m, n - 1, c);
      assert Stepped(run, steps, n - 1);
    }
  }

  // The stop always gets there: while it is closing, it has a next step, and each one shortens its list.
  lemma StopMakesProgress(run: seq<State>, steps: seq<Step>, n: nat, c: nat)
    requires Run(run, steps) && n < |run| && run[n].stop.Closing?
    ensures run[n].stop.todo == {} ==> Enabled(run[n], StopEnds)
    ensures c in run[n].stop.todo ==>
              Enabled(run[n], StopCloses(c)) && Apply(run[n], StopCloses(c)).stop.Closing?
              && Apply(run[n], StopCloses(c)).stop.todo < run[n].stop.todo && !Open(Apply(run[n], StopCloses(c)), c)
  {
  }

  // A closed connection that is stopped, and not just being opened, is closed for as long as it exists.
  lemma {:induction false} StoppedStaysClosed(run: seq<State>, steps: seq<Step>, m: nat, n: nat, c: nat)
    requires Run(run, steps) && m <= n < |run|
    requires c in run[m].live && run[m].live[c] == Connection(true, true) && run[m].opening != Some(c)
    requires forall i :: m <= i < n ==> steps[i] != DropConnection(c)
    ensures c in run[n].live && run[n].live[c] == Connection(true, true) && run[n].opening != Some(c)
  {
    if m < n {
      StoppedStaysClosed(run, steps, m, n - 1, c);
      assert Stepped(run, steps, n - 1);
    }
  }

  // A stopped, closed connection can open exactly if its session is past the checks and has yet to store: then storing
  // opens it, and no other step ever does.
  lemma StoppedOpensExactly(run: seq<State>, steps: seq<Step>, m: nat, c: nat)
    requires Run(run, steps) && m < |run| && c in run[m].live && run[m].live[c] == Connection(true, true)
    ensures run[m].opening == Some(c) <==> exists step :: Enabled(run[m], step) && Open(Apply(run[m], step), c)
    ensures run[m].opening != Some(c) ==>
              forall n :: m <= n < |run| && Open(run[n], c) ==> exists i :: m <= i < n && steps[i] == DropConnection(c)
  {
    if run[m].opening == Some(c) {
      assert Enabled(run[m], OpenStores) && Open(Apply(run[m], OpenStores), c);
    } else {
      forall n | m <= n < |run| && Open(run[n], c) ensures exists i :: m <= i < n && steps[i] == DropConnection(c) {
        if forall i :: m <= i < n ==> steps[i] != DropConnection(c) {
          StoppedStaysClosed(run, steps, m, n, c);
        }
      }
    }
  }

  // ---------------------------------------------------------------- from a terminal error to the end

  ghost predicate Continues(s: State, steps: seq<Step>, t: State)
    decreases |steps|
  {
    if steps == [] then s == t
    else Enabled(s, steps[0]) && Continues(Apply(s, steps[0]), steps[1..], t)
  }

  // A stop that has its snapshot closes it connection by connection.
  lemma StopFinishes(s: State) returns (steps: seq<Step>, t: State)
    requires s.stop.Closing?
    ensures Continues(s, steps, t) && t.stop == Done && t.blocked == s.blocked && t.live.Keys == s.live.Keys
    decreases s.stop.todo
  {
    var rest: seq<Step>;
    if s.stop.todo == {} {
      steps, t := [StopEnds], Apply(s, StopEnds);
      assert steps[1..] == [];
    } else {
      var c :| c in s.stop.todo;
      rest, t := StopFinishes(Apply(s, StopCloses(c)));
      steps := [StopCloses(c)] + rest;
      assert steps[1..] == rest;
    }
  }

  // From every reachable state of an identity that is not blocked, with no session just being opened, a terminal error
  // blocks it at once, and the stop can then close whatever is open.
  lemma TerminalErrorBlocks(run: seq<State>, taken: seq<Step>, n: nat) returns (steps: seq<Step>, t: State)
    requires Run(run, taken) && n < |run| && !run[n].blocked && run[n].opening == None
    ensures Continues(run[n], steps, t) && steps != [] && Apply(run[n], steps[0]).blocked
    ensures t.blocked && t.stop == Done && t.live.Keys == run[n].live.Keys && forall c :: !Open(t, c)
  {
    var s := run[n];
    ReachableInv(run, taken, n);
    var begun := Apply(s, StopBegins);
    var listed := Apply(begun, StopTakesList);
    StepKeepsInv(s, StopBegins);
    StepKeepsInv(begun, StopTakesList);
    var rest: seq<Step>;
    rest, t := StopFinishes(listed);
    ContinuesKeepsInv(listed, rest, t);
    steps := [StopBegins, StopTakesList] + rest;
    assert steps[1..] == [StopTakesList] + rest && steps[1..][1..] == rest;
  }

  lemma {:induction false} ContinuesKeepsInv(s: State, steps: seq<Step>, t: State)
    requires Inv(s) && Continues(s, steps, t)
    ensures Inv(t)
    decreases |steps|
  {
    if steps != [] {
      StepKeepsInv(s, steps[0]);
      ContinuesKeepsInv(Apply(s, steps[0]), steps[1..], t);
    }
  }

  // A session opens its connection exactly if neither its identity is blocked nor it is stopped, when it looks.
  lemma SessionsOpen(s: State, c: nat)
    requires c in s.live && s.opening == None
    ensures Enabled(s, OpenChecks(c)) <==> !s.blocked && !s.live[c].stopped
    ensures Enabled(s, OpenChecks(c)) ==>
              var t := Apply(Apply(s, OpenChecks(c)), OpenStores);
              Open(t, c) && t == s.(live := s.live[c := s.live[c].(closed := false)])
  {
  }

  // A new connection is closed, not stopped, and on the list; closing and stopping do just that.
  lemma ConnectionsDo(s: State, c: nat, other: nat)
    ensures Enabled(s, Create(c)) ==>
              var t := Apply(s, Create(c));
              && c in t.listed && c in t.live && t.live[c] == Connection(true, false)
              && (other in s.live && other != c ==> other in t.live && t.live[other] == s.live[other])
              && (other in s.live && other in s.listed ==> other in t.listed)
    ensures c in s.live ==>
              && Apply(s, Close(c)).live[c] == Connection(true, s.live[c].stopped)
              && Apply(s, SetStopped(c)).live[c] == Connection(s.live[c].closed, true)
  {
  }

  // Being stopped is weaker than being blocked: a stop without the lock can fall between the checks and the store of an
  // opening session, which then opens a stopped connection (until its own task notices and closes it).
  lemma StoppedConnectionCanOpen()
    ensures var run := StoppedOpenRun(); var steps := [Create(0), OpenChecks(0), SetStopped(0), Close(0), OpenStores];
            Run(run, steps) && Open(run[5], 0) && run[5].live[0].stopped
  {
  }

  function StoppedOpenRun(): seq<State> {
    var s1 := Start().(live := map[0 := Connection(true, false)], listed := {0});
    var s2 := s1.(opening := Some(0));
    var s3 := s2.(live := map[0 := Connection(true, true)]);
    [Start(), s1, s2, s3, s3, s3.(opening := None, live := map[0 := Connection(false, true)])]
  }

  // ---------------------------------------------------------------- the registry of identities

  class AccessIdentity {
    var blocked: bool

    constructor ()
      ensures !blocked
    {
      blocked := false;
    }
  }

  // (normalised URL, credential id); the key is None where the URL is refused.
  class AccessRuntime {
    var identities: map<(string, string), AccessIdentity>

    constructor ()
      ensures identities == map[]
    {
      identities := map[];
    }

    // `identity`: every reload that names the same gateway and tokens gets the same object, block included, and
    // different ones get different objects.
    method Identity(key: Option<(string, string)>) returns (r: Option<AccessIdentity>)
      requires forall a, b :: a in identities && b in identities && a != b ==> identities[a] != identities[b]
      modifies this
      ensures forall a, b :: a in identities && b in identities && a != b ==> identities[a] != identities[b]
      ensures r.Some? <==> key.Some?
      ensures r.Some? ==> key.value in identities && r.value == identities[key.value]
      ensures forall k :: k in old(identities) ==> k in identities && identities[k] == old(identities[k])
      ensures identities.Keys == old(identities.Keys) + if key.Some? then {key.value} else {}
      ensures r.Some? && key.value !in old(identities) ==> fresh(r.value) && !r.value.blocked
    {
      if key.None? {
        return None;
      }
      if key.value !in identities {
        var identity := new AccessIdentity();
        identities := identities[key.value := identity];
      }
      return Some(identities[key.value]);
    }
  }
}
