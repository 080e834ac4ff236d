// Waiting for a one-way flag with a notifier: `StreamCancellation` (crates/ws-net-gateway/src/tcp.rs) and the blocking
// of an access identity (crates/ws-net-access/src/app.rs `cancelled`, crates/ws-net-access/src/gateway.rs
// `stop_identity`). Any number of waiters and cancellers take their steps in any order.
module Wakeup {
  // `Looking`: about to test the flag before registering. `Armed`: registered with the notifier (and perhaps already
  // notified), about to test the flag again. `Parked`: awaiting the notification. `Returned`: out of `cancelled()`.
  datatype Point = Looking | Arming | Armed(notified: bool) | Parked(notified: bool) | Returned

  // The identity's loop registers first and tests once a round; `testsFirst` is the stream's loop, which tests before
  // too.
  datatype Waiter = Waiter(at: Point, testsFirst: bool)

  // `MustNotify`: was the one to set the flag and has not called `notify_waiters` yet.
  datatype Canceller = Ready | MustNotify | Finished

  datatype State = State(flag: bool, waiters: map<nat, Waiter>, cancellers: map<nat, Canceller>)

  datatype Step =
    | NewWaiter(w: nat, testsFirst: bool)
    | NewCanceller(c: nat)
    | Test(w: nat)
    | Arm(w: nat)
    | TestAgain(w: nat)
    | Wake(w: nat)
    | Swap(c: nat)
    | Notify(c: nat)

  predicate Enabled(s: State, step: Step) {
    match step
    case NewWaiter(w, _) => w !in s.waiters
    case NewCanceller(c) => c !in s.cancellers
    case Test(w) => w in s.waiters && s.waiters[w].at == Looking
    case Arm(w) => w in s.waiters && s.waiters[w].at == Arming
    case TestAgain(w) => w in s.waiters && s.waiters[w].at.Armed?
    case Wake(w) => w in s.waiters && s.waiters[w].at == Parked(true)
    case Swap(c) => c in s.cancellers && s.cancellers[c] == Ready
    case Notify(c) => c in s.cancellers && s.cancellers[c] == MustNotify
  }

  // `notify_waiters` reaches every waiter registered at that moment.
  function Notified(at: Point): Point {
    match at
    case Armed(_) => Armed(true)
    case Parked(_) => Parked(true)
    case other => other
  }

  // Where a round of the loop begins.
  function Start(testsFirst: bool): Point {
    if testsFirst then Looking else Arming
  }

  function Move(s: State, w: nat, at: Point): State
    requires w in s.waiters
  {
    s.(waiters := s.waiters[w := s.waiters[w].(at := at)])
  }

  function Apply(s: State, step: Step): State
    requires Enabled(s, step)
  {
    match step
    case NewWaiter(w, testsFirst) => s.(waiters := s.waiters[w := Waiter(Start(testsFirst), testsFirst)])
    case NewCanceller(c) => s.(cancellers := s.cancellers[c := Ready])
    case Test(w) => Move(s, w, if s.flag then Returned else Arming)
    case Arm(w) => Move(s, w, Armed(false))
    case TestAgain(w) => Move(s, w, if s.flag then Returned else Parked(s.waiters[w].at.notified))
    case Wake(w) => Move(s, w, Start(s.waiters[w].testsFirst))
    case Swap(c) => s.(flag := true, cancellers := s.cancellers[c := if s.flag then Finished else MustNotify])
    case Notify(c) =>
      s.(waiters := map w | w in s.waiters :: s.waiters[w].(at := Notified(s.waiters[w].at)),
         cancellers := s.cancellers[c := Finished])
  }

  ghost predicate NotifyPending(s: State) {
    exists c :: c in s.cancellers && s.cancellers[c] == MustNotify
  }

  ghost predicate Inv(s: State) {
    && (forall w :: w in s.waiters && s.waiters[w].at == Parked(false) && s.flag ==> NotifyPending(s))
    && (forall w :: w in s.waiters && s.waiters[w].at == Returned ==> s.flag)
    && (forall c :: c in s.cancellers && s.cancellers[c] != Ready ==> s.flag)
  }

  lemma StepKeepsInv(s: State, step: Step)
    requires Inv(s) && Enabled(s, step)
    ensures Inv(Apply(s, step))
  {
    var t := Apply(s, step);
    match step
    case Swap(c) =>
      assert c in t.cancellers;
      if NotifyPending(s) {
        var d :| d in s.cancellers && s.cancellers[d] == MustNotify;
        assert d in t.cancellers && t.cancellers[d] == MustNotify;
      }
    case NewCanceller(c) =>
      if NotifyPending(s) {
        var d :| d in s.cancellers && s.cancellers[d] == MustNotify;
        assert t.cancellers[d] == MustNotify;
      }
    case _ =>
      if t.cancellers == s.cancellers {
        assert NotifyPending(s) <==> NotifyPending(t);
      }
  }

  // What a canceller leaves behind: the flag is set, and exactly the one that set it has to notify; the notification
  // reaches every waiter registered or parked at that moment, and no other.
  lemma CancellersDo(s: State, c: nat, w: nat)
    requires c in s.cancellers && w in s.waiters
    ensures s.cancellers[c] == Ready ==>
              var t := Apply(s, Swap(c));
              t.flag && t.waiters == s.waiters && (t.cancellers[c] == MustNotify <==> !s.flag)
    ensures s.cancellers[c] == MustNotify ==>
              var t := Apply(s, Notify(c));
              && t.flag == s.flag && t.cancellers[c] == Finished
              && t.waiters[w].testsFirst == s.waiters[w].testsFirst
              && (s.waiters[w].at.Armed? ==> t.waiters[w].at == Armed(true))
              && (s.waiters[w].at.Parked? ==> t.waiters[w].at == Parked(true))
              && (!s.waiters[w].at.Armed? && !s.waiters[w].at.Parked? ==> t.waiters[w] == s.waiters[w])
  {
  }

  // And what a waiter's own steps do: a test returns exactly with the flag set; a registration is not yet notified;
  // only a notified sleeper wakes, and it looks again from the start of its loop.
  lemma WaitersDo(s: State, w: nat)
    requires w in s.waiters
    ensures Enabled(s, Test(w)) ==> (Apply(s, Test(w)).waiters[w].at == Returned <==> s.flag)
    ensures Enabled(s, TestAgain(w)) ==>
              && (Apply(s, TestAgain(w)).waiters[w].at == Returned <==> s.flag)
              && (!s.flag ==> Apply(s, TestAgain(w)).waiters[w].at == Parked(s.waiters[w].at.notified))
    ensures Enabled(s, Arm(w)) ==> Apply(s, Arm(w)).waiters[w].at == Armed(false)
    ensures Enabled(s, Wake(w)) <==> s.waiters[w].at == Parked(true)
    ensures Enabled(s, Wake(w)) ==>
              Apply(s, Wake(w)).waiters[w].at == if s.waiters[w].testsFirst then Looking else Arming
  {
  }

  ghost predicate Run(run: seq<State>, steps: seq<Step>) {
    && |run| == |steps| + 1 && run[0] == State(false, map[], map[])
    && forall i :: 0 <= i < |steps| ==> Stepped(run, steps, i)
  }

  ghost predicate Stepped(run: seq<State>, steps: seq<Step>, i: nat)
    requires |run| == |steps| + 1 && i < |steps|
  {
    Enabled(run[i], steps[i]) && run[i + 1] == Apply(run[i], steps[i])
  }

  lemma {:induction false} ReachableInv(run: seq<State>, steps: seq<Step>, n: nat)
    requires Run(run, steps) && n < |run|
    ensures Inv(run[n])
  {
    if n > 0 {
      ReachableInv(run, steps, n - 1);
      assert Stepped(run, steps, n - 1);
      StepKeepsInv(run[n - 1], steps[n - 1]);
    }
  }

  // No wakeup is lost: a waiter that sleeps although the flag is set is about to be notified. And no waiter returns
  // before the flag is set.
  lemma NoLostWakeup(run: seq<State>, steps: seq<Step>, n: nat, w: nat)
    requires Run(run, steps) && n < |run| && w in run[n].waiters
    ensures run[n].flag && run[n].waiters[w].at == Parked(false) ==> NotifyPending(run[n])
    ensures run[n].waiters[w].at == Returned ==> run[n].flag
  {
    ReachableInv(run, steps, n);
  }

  // The steps a waiter still needs once the flag is set and the notifications are out.
  function StepsLeft(w: Waiter): nat {
    match w.at
    case Returned => 0
    case Looking => 1
    case Armed(_) => 1
    case Arming => 2
    case Parked(_) => if w.testsFirst then 2 else 3
  }

  function OwnStep(w: nat, at: Point): Step {
    match at
    case Looking => Test(w)
    case Arming => Arm(w)
    case Armed(_) => TestAgain(w)
    case _ => Wake(w)
  }

  // Then every waiter that has not returned can move, and is out after at most two moves of its own in the stream's
  // loop, three in the identity's.
  lemma WaitersGetOut(run: seq<State>, steps: seq<Step>, n: nat, w: nat)
    requires Run(run, steps) && n < |run| && w in run[n].waiters
    requires run[n].flag && !NotifyPending(run[n]) && run[n].waiters[w].at != Returned
    ensures var waiter := run[n].waiters[w]; var step := OwnStep(w, waiter.at);
            && Enabled(run[n], step)
            && StepsLeft(Apply(run[n], step).waiters[w]) < StepsLeft(waiter)
            && StepsLeft(waiter) <= if waiter.testsFirst then 2 else 3
  {
    ReachableInv(run, steps, n);
  }
}
