// Who is left waiting for whom: every open is answered and every end is told, except that an aborted access handler
// leaves the gateway's task in place until the next data from the target (the same runs as in HalfClose;
// crates/ws-net-access/src/tcp.rs, crates/ws-net-gateway/src/tcp.rs, crates/ws-net-gateway/src/ws.rs
// `handle_text_message`, crates/ws-net-access/src/gateway.rs `handle_gateway_frame` and `handle_gateway_message`).
module StreamTeardown {
  import opened HalfClose

  // Open is the first message there is.
  ghost predicate OpenLeads(s: System) {
    && (s.access == Idle ==> s.up.fifo == [] && s.down.fifo == [] && s.gateway == Idle)
    && forall i :: 0 <= i < |s.up.fifo| && s.up.fifo[i] == Open ==> i == 0 && s.gateway == Idle && s.down.fifo == []
  }

  // The gateway runs nothing for the stream, and no Open is on its way to change that.
  predicate NothingRuns(s: System) {
    !Running(s.gateway) && Open !in s.up.fifo
  }

  // The first thing a waiting open hears is its answer.
  predicate HeadAnswers(s: System) {
    s.down.fifo != [] && (s.down.fifo[0] == OpenOk || (s.down.fifo[0] == Error && NothingRuns(s)))
  }

  ghost predicate OpenAnswered(s: System) {
    && (s.gateway == Opening ==> s.down.fifo == [])
    && (s.sessionUp && s.access == Opening ==> Open in s.up.fifo || s.gateway == Opening || HeadAnswers(s))
  }

  // An access side that ended has told the gateway, or was refused, or was aborted.
  ghost predicate AccessEndTold(s: System) {
    s.sessionUp && s.access == Ended ==>
      Close in s.up.fifo || s.cancelled || NothingRuns(s) || (s.aborted && !s.told)
  }

  ghost predicate GatewayEndTold(s: System) {
    s.sessionUp && s.gateway == Ended ==> Close in s.down.fifo || (s.access != Opening && s.down.cause != Present)
  }

  // Only a Close of the access side, or the end of the session, ever cancels the gateway's task.
  ghost predicate CancelledForCause(s: System) {
    && (s.cancelled && s.sessionUp ==> s.told)
    && (Close in s.up.fifo ==> s.told)
    && (s.unknown ==> s.told)
    && (s.aborted ==> s.access == Ended)
  }

  ghost predicate Answering(s: System) {
    OpenLeads(s) && OpenAnswered(s) && AccessEndTold(s) && GatewayEndTold(s) && CancelledForCause(s)
  }

  // The steps that take messages out of the queues; all others only add to them.
  predicate Takes(step: Step) {
    step.AccessDispatch? || step.GatewayDispatch? || step.GatewayRefuses? || step.SessionEnds?
  }

  lemma TakingKeepsOpenLeads(s: System, step: Step)
    requires OpenLeads(s) && Enabled(s, step) && Takes(step)
    ensures OpenLeads(Apply(s, step))
  {
  }

  lemma AddingKeepsOpenLeads(s: System, step: Step)
    requires OpenLeads(s) && Enabled(s, step) && !Takes(step)
    ensures OpenLeads(Apply(s, step))
  {
  }

  lemma TakingKeepsOpenAnswered(s: System, step: Step)
    requires OpenLeads(s) && OpenAnswered(s) && Handshake(s) && Enabled(s, step) && Takes(step)
    ensures OpenAnswered(Apply(s, step))
  {
    if s.up.fifo != [] {
      HeadOrRest(s.up.fifo, Open);
    }
  }

  lemma AddingKeepsOpenAnswered(s: System, step: Step)
    requires OpenLeads(s) && OpenAnswered(s) && Handshake(s) && Enabled(s, step) && !Takes(step)
    ensures OpenAnswered(Apply(s, step))
  {
  }

  lemma AccessDispatchKeepsAccessEnd(s: System)
    requires OpenLeads(s) && OpenAnswered(s) && AccessEndTold(s) && Enabled(s, AccessDispatch)
    ensures AccessEndTold(AccessDispatched(s))
  {
  }

  lemma GatewayDispatchKeepsAccessEnd(s: System)
    requires OpenLeads(s) && AccessEndTold(s) && Enabled(s, GatewayDispatch)
    ensures AccessEndTold(GatewayDispatched(s))
  {
    HeadOrRest(s.up.fifo, Open);
    HeadOrRest(s.up.fifo, Close);
  }

  lemma OtherTakingKeepsAccessEnd(s: System, step: Step)
    requires AccessEndTold(s) && Enabled(s, step) && (step.GatewayRefuses? || step.SessionEnds?)
    ensures AccessEndTold(Apply(s, step))
  {
    if s.up.fifo != [] {
      HeadOrRest(s.up.fifo, Open);
      HeadOrRest(s.up.fifo, Close);
    }
  }

  lemma AddingKeepsAccessEnd(s: System, step: Step)
    requires OpenLeads(s) && AccessEndTold(s) && Enabled(s, step) && !Takes(step)
    requires s.told ==> s.access == Ended
    ensures AccessEndTold(Apply(s, step))
  {
  }

  lemma StepKeepsGatewayEnd(s: System, step: Step)
    requires OpenLeads(s) && GatewayEndTold(s) && Enabled(s, step)
    ensures GatewayEndTold(Apply(s, step))
  {
  }

  lemma TakingKeepsCause(s: System, step: Step)
    requires CancelledForCause(s) && Enabled(s, step) && Takes(step)
    ensures CancelledForCause(Apply(s, step))
  {
    if s.up.fifo != [] {
      HeadOrRest(s.up.fifo, Close);
    }
  }

  lemma AddingKeepsCause(s: System, step: Step)
    requires CancelledForCause(s) && Enabled(s, step) && !Takes(step)
    ensures CancelledForCause(Apply(s, step))
  {
  }

  lemma StepKeepsAnswering(s: System, step: Step)
    requires Answering(s) && Inv(s) && Enabled(s, step)
    ensures Answering(Apply(s, step))
  {
    if Takes(step) {
      TakingKeepsOpenLeads(s, step);
      TakingKeepsOpenAnswered(s, step);
      TakingKeepsCause(s, step);
      if step.AccessDispatch? {
        AccessDispatchKeepsAccessEnd(s);
      } else if step.GatewayDispatch? {
        GatewayDispatchKeepsAccessEnd(s);
      } else {
        OtherTakingKeepsAccessEnd(s, step);
      }
    } else {
      AddingKeepsOpenLeads(s, step);
      AddingKeepsOpenAnswered(s, step);
      AddingKeepsAccessEnd(s, step);
      AddingKeepsCause(s, step);
    }
    StepKeepsGatewayEnd(s, step);
  }

  lemma StartAnswers()
    ensures Answering(Start())
  {
  }

  lemma {:induction false} ReachableAnswering(run: seq<System>, steps: seq<Step>, n: nat)
    requires Run(run, steps) && n < |run|
    ensures Answering(run[n])
  {
    if n == 0 {
      StartAnswers();
    } else {
      ReachableAnswering(run, steps, n - 1);
      ReachableInv(run, steps, n - 1);
      assert Stepped(run, steps, n - 1);
      StepKeepsAnswering(run[n - 1], steps[n - 1]);
    }
  }

  // ---------------------------------------------------------------- aborted handlers

  // A message of the target reached the access side at step i.
  ghost predicate DataArrives(run: seq<System>, steps: seq<Step>, i: nat)
    requires |run| == |steps| + 1 && i < |steps|
  {
    steps[i] == AccessDispatch && run[i].down.fifo != [] && run[i].down.fifo[0].Data?
  }

  // The handler was aborted before step n, and nothing of the target has arrived since.
  ghost predicate AbandonedSilently(run: seq<System>, steps: seq<Step>, n: nat)
    requires |run| == |steps| + 1 && n < |run|
  {
    exists m :: 0 <= m < n && AbortedAt(run, steps, m, n)
  }

  ghost predicate AbortedAt(run: seq<System>, steps: seq<Step>, m: nat, n: nat)
    requires |run| == |steps| + 1 && m < n < |run|
  {
    steps[m].AccessAborts? && forall i :: m < i < n ==> !DataArrives(run, steps, i)
  }

  // Whatever of the target arrives for a handler that is gone is answered with Close, if the stream was not before.
  lemma ArrivalTells(s: System)
    requires Inv(s) && Answering(s) && s.sessionUp && s.access == Ended
    requires s.down.fifo != [] && s.down.fifo[0].Data?
    ensures AccessDispatched(s).told
  {
    DataIsPayload(s.down.fifo);
  }

  // A handler that is gone says nothing more, unless data makes its session answer for it.
  lemma StepSilence(s: System, step: Step)
    requires Inv(s) && Answering(s) && Enabled(s, step)
    ensures var t := Apply(s, step);
            t.aborted && !t.told <==>
              step.AccessAborts? || (s.aborted && !s.told && !(step == AccessDispatch && s.down.fifo[0].Data?))
  {
    if step == AccessDispatch && s.access == Ended && s.down.fifo[0].Data? {
      ArrivalTells(s);
    }
  }

  lemma SilenceGoesOn(run: seq<System>, steps: seq<Step>, n: nat)
    requires |run| == |steps| + 1 && n < |steps|
    ensures AbandonedSilently(run, steps, n + 1) <==>
              steps[n].AccessAborts? || (AbandonedSilently(run, steps, n) && !DataArrives(run, steps, n))
  {
    if steps[n].AccessAborts? {
      assert AbortedAt(run, steps, n, n + 1);
    } else if AbandonedSilently(run, steps, n) && !DataArrives(run, steps, n) {
      var m :| 0 <= m < n && AbortedAt(run, steps, m, n);
      assert AbortedAt(run, steps, m, n + 1);
    }
    if AbandonedSilently(run, steps, n + 1) && !steps[n].AccessAborts? {
      var m :| 0 <= m < n + 1 && AbortedAt(run, steps, m, n + 1);
      assert AbortedAt(run, steps, m, n);
    }
  }

  lemma {:induction false} SilentExactly(run: seq<System>, steps: seq<Step>, n: nat)
    requires Run(run, steps) && n < |run|
    ensures run[n].aborted && !run[n].told <==> AbandonedSilently(run, steps, n)
  {
    if n > 0 {
      SilentExactly(run, steps, n - 1);
      ReachableInv(run, steps, n - 1);
      ReachableAnswering(run, steps, n - 1);
      assert Stepped(run, steps, n - 1);
      StepSilence(run[n - 1], steps[n - 1]);
      SilenceGoesOn(run, steps, n - 1);
    }
  }

  // ---------------------------------------------------------------- the theorems

  // In every run, once a living tunnel is drained: an open still waiting has a gateway task connecting for it; an ended
  // access side has left a gateway task uncancelled exactly if its handler was aborted and nothing of the target has
  // arrived since; an ended gateway side has ended the access side's open, or taken the sender its relay reads from,
  // which therefore comes to its end.
  lemma NobodyIsLeftWaiting(run: seq<System>, steps: seq<Step>, n: nat)
    requires Run(run, steps) && n < |run|
    requires run[n].sessionUp && run[n].up.fifo == [] && run[n].down.fifo == []
    ensures run[n].access == Opening ==> run[n].gateway == Opening
    ensures run[n].access == Ended && Running(run[n].gateway) ==>
              (!run[n].cancelled <==> AbandonedSilently(run, steps, n))
    ensures run[n].gateway == Ended ==> run[n].access != Opening && run[n].down.cause != Present
    ensures run[n].gateway == Ended && run[n].access == Relaying && run[n].down.chan == [] && !run[n].down.shut ==>
              Enabled(run[n], AccessShuts)
  {
    ReachableAnswering(run, steps, n);
    ReachableInv(run, steps, n);
    SilentExactly(run, steps, n);
  }

  // The gateway's task is cancelled only after the access side sent Close: its handler has ended, or is gone.
  lemma CancelledOnlyAfterClose(run: seq<System>, steps: seq<Step>, n: nat)
    requires Run(run, steps) && n < |run| && run[n].cancelled && run[n].sessionUp
    ensures run[n].told && run[n].access == Ended
  {
    ReachableAnswering(run, steps, n);
    ReachableInv(run, steps, n);
  }

  // So while the session lives and the access relay goes on, a shut of the target's write half is a complete upload.
  lemma UploadCompleteWhileAccessRelays(run: seq<System>, steps: seq<Step>, n: nat)
    requires Run(run, steps) && n < |run| && Enabled(run[n], GatewayShuts)
    requires run[n].sessionUp && run[n].access == Relaying
    ensures run[n].up.eof && run[n].up.written == run[n].up.read
  {
    if run[n].cancelled {
      CancelledOnlyAfterClose(run, steps, n);
    } else {
      UpstreamHalfCloseIsComplete(run, steps, n);
    }
  }

  // A handler that ended by itself has left no entry behind; only an aborted one may have.
  ghost predicate LeftClean(s: System) {
    s.access == Ended && !s.aborted ==> s.down.cause != Present
  }

  lemma StepLeavesClean(s: System, step: Step)
    requires LeftClean(s) && Enabled(s, step)
    ensures LeftClean(Apply(s, step))
  {
  }

  lemma {:induction false} EndedHandlersLeaveNoEntry(run: seq<System>, steps: seq<Step>, n: nat)
    requires Run(run, steps) && n < |run|
    ensures LeftClean(run[n])
  {
    if n > 0 {
      EndedHandlersLeaveNoEntry(run, steps, n - 1);
      assert Stepped(run, steps, n - 1);
      StepLeavesClean(run[n - 1], steps[n - 1]);
    }
  }

  // The exception is real: a handler aborted while it relays leaves a drained, living tunnel and a gateway task that
  // nobody has cancelled.
  lemma AbortLeavesTheTask()
    ensures var run := AbortedRun(); var steps := AbortedSteps(); var last := run[5];
            && Run(run, steps)
            && last.sessionUp && last.up.fifo == [] && last.down.fifo == []
            && last.access == Ended && last.gateway == Relaying && !last.cancelled
  {
    OpeningRuns();
    AnsweringRuns();
    AbortingRuns();
  }

  lemma AbortingRuns()
    ensures Stepped(AbortedRun(), AbortedSteps(), 4)
  {
  }

  function AbortedSteps(): seq<Step> {
    BrokenTargetSteps()[..4] + [AccessAborts([], false)]
  }

  function AbortedRun(): seq<System> {
    var relaying := BrokenTargetRun()[4];
    BrokenTargetRun()[..5] + [relaying.(access := Ended, aborted := true, up := relaying.up.(ended := true))]
  }
}
