// What the relays' steps bring about, and that a half-closed stream can always be finished: the other side of
// HalfClose's invariants (crates/ws-net-gateway/src/tcp.rs, crates/ws-net-access/src/tcp.rs).
module RelayProgress {
  import opened Basics
  import opened HalfClose

  // A write of n hands exactly the next n buffered bytes to the socket.
  lemma WriteMovesExactly(l: Link, n: nat)
    requires l.chan != [] && n <= |l.chan[0]|
    ensures var w := Write(l, n);
            && n <= |Cat(l.chan)|
            && w.written == l.written + Cat(l.chan)[..n] && Cat(w.chan) == Cat(l.chan)[n..]
            && w == l.(written := w.written, chan := w.chan)
            && (n == |l.chan[0]| ==> |w.chan| == |l.chan| - 1)
  {
    var c, rest := l.chan[0], Cat(l.chan[1..]);
    assert Cat(l.chan) == c + rest;
    assert (c + rest)[..n] == c[..n] && (c + rest)[n..] == c[n..] + rest;
    var w := Write(l, n);
    if n == |c| {
      assert c[n..] + rest == rest;
    } else {
      assert w.chan[0] == c[n..] && w.chan[1..] == l.chan[1..];
    }
  }

  ghost predicate Continues(s: System, steps: seq<Step>, t: System)
    decreases |steps|
  {
    if steps == [] then s == t
    else Enabled(s, steps[0]) && Continues(Apply(s, steps[0]), steps[1..], t)
  }

  lemma {:induction false} ContinuesConcat(s: System, a: seq<Step>, t: System, b: seq<Step>, u: System)
    requires Continues(s, a, t) && Continues(t, b, u)
    ensures Continues(s, a + b, u)
    decreases |a|
  {
    if a == [] {
      assert a + b == b;
    } else {
      ContinuesConcat(Apply(s, a[0]), a[1..], t, b, u);
      assert (a + b)[1..] == a[1..] + b;
    }
  }

  lemma OneStep(s: System, step: Step)
    requires Enabled(s, step)
    ensures Continues(s, [step], Apply(s, step))
  {
    assert [step][1..] == [];
  }

  lemma FollowedBy(s: System, step: Step, rest: seq<Step>, t: System)
    requires Enabled(s, step) && Continues(Apply(s, step), rest, t)
    ensures Continues(s, [step] + rest, t)
  {
    assert ([step] + rest)[1..] == rest;
  }

  // ---------------------------------------------------------------- the sink's relay

  ghost predicate OnlyGatewayRelay(steps: seq<Step>) {
    forall i :: 0 <= i < |steps| ==> steps[i].GatewayWrites? || steps[i] == GatewayShuts
  }

  ghost predicate OnlyAccessRelay(steps: seq<Step>) {
    forall i :: 0 <= i < |steps| ==> steps[i].AccessWrites? || steps[i] == AccessShuts
  }

  // The gateway's relay hands a whole chunk to the target.
  lemma GatewayWritesChunk(s: System)
    requires s.gateway == Relaying && s.up.chan != []
    ensures Enabled(s, GatewayWrites(|s.up.chan[0]|))
    ensures Apply(s, GatewayWrites(|s.up.chan[0]|))
              == s.(up := s.up.(written := s.up.written + s.up.chan[0], chan := s.up.chan[1..]))
  {
  }

  // So it writes all it has and then shuts its socket's write half.
  function GatewayTail(chan: seq<Bytes>): (steps: seq<Step>)
    ensures OnlyGatewayRelay(steps)
  {
    if chan == [] then [GatewayShuts] else [GatewayWrites(|chan[0]|)] + GatewayTail(chan[1..])
  }

  function GatewayFinished(s: System): System {
    s.(up := s.up.(written := s.up.written + Cat(s.up.chan), chan := [], shut := true))
  }

  lemma GatewayWritesOn(s: System)
    requires s.gateway == Relaying && s.up.chan != []
    ensures GatewayFinished(Apply(s, GatewayWrites(|s.up.chan[0]|))) == GatewayFinished(s)
  {
    GatewayWritesChunk(s);
    var chan := s.up.chan;
    assert (s.up.written + chan[0]) + Cat(chan[1..]) == s.up.written + Cat(chan);
  }

  lemma GatewayFinishes(s: System)
    requires s.gateway == Relaying && s.up.cause != Present && s.up.cause != Missing && !s.up.shut
    ensures Continues(s, GatewayTail(s.up.chan), GatewayFinished(s))
    decreases |s.up.chan|
  {
    var chan := s.up.chan;
    if chan == [] {
      assert s.up.written + [] == s.up.written;
      OneStep(s, GatewayShuts);
    } else {
      var step := GatewayWrites(|chan[0]|);
      GatewayWritesChunk(s);
      GatewayWritesOn(s);
      GatewayFinishes(Apply(s, step));
      FollowedBy(s, step, GatewayTail(chan[1..]), GatewayFinished(s));
    }
  }

  // The access relay hands a whole chunk to the local socket.
  lemma AccessWritesChunk(s: System)
    requires s.access == Relaying && s.down.chan != []
    ensures Enabled(s, AccessWrites(|s.down.chan[0]|))
    ensures Apply(s, AccessWrites(|s.down.chan[0]|))
              == s.(down := s.down.(written := s.down.written + s.down.chan[0], chan := s.down.chan[1..]))
  {
  }

  // So it writes all it has and then shuts its socket's write half.
  function AccessTail(chan: seq<Bytes>): (steps: seq<Step>)
    ensures OnlyAccessRelay(steps)
  {
    if chan == [] then [AccessShuts] else [AccessWrites(|chan[0]|)] + AccessTail(chan[1..])
  }

  function AccessFinished(s: System): System {
    s.(down := s.down.(written := s.down.written + Cat(s.down.chan), chan := [], shut := true))
  }

  lemma AccessWritesOn(s: System)
    requires s.access == Relaying && s.down.chan != []
    ensures AccessFinished(Apply(s, AccessWrites(|s.down.chan[0]|))) == AccessFinished(s)
  {
    AccessWritesChunk(s);
    var chan := s.down.chan;
    assert (s.down.written + chan[0]) + Cat(chan[1..]) == s.down.written + Cat(chan);
  }

  lemma AccessFinishes(s: System)
    requires s.access == Relaying && s.down.cause != Present && s.down.cause != Missing && !s.down.shut
    ensures Continues(s, AccessTail(s.down.chan), AccessFinished(s))
    decreases |s.down.chan|
  {
    var chan := s.down.chan;
    if chan == [] {
      assert s.down.written + [] == s.down.written;
      OneStep(s, AccessShuts);
    } else {
      var step := AccessWrites(|chan[0]|);
      AccessWritesChunk(s);
      AccessWritesOn(s);
      AccessFinishes(Apply(s, step));
      FollowedBy(s, step, AccessTail(chan[1..]), AccessFinished(s));
    }
  }

  // From every reachable state in which TcpEof has arrived, the gateway's relay alone can finish the upload: the write
  // half shut, every byte the access side read written.
  lemma UploadFinishes(run: seq<System>, taken: seq<Step>, n: nat) returns (steps: seq<Step>, t: System)
    requires Run(run, taken) && n < |run|
    requires run[n].gateway == Relaying && run[n].up.cause == ByEof && !run[n].up.shut
    ensures Continues(run[n], steps, t) && OnlyGatewayRelay(steps)
    ensures t.up.shut && t.up.read == run[n].up.read && t.up.written == t.up.read
  {
    ReachableInv(run, taken, n);
    NothingInFlight(run[n].up.fifo);
    steps, t := GatewayTail(run[n].up.chan), GatewayFinished(run[n]);
    GatewayFinishes(run[n]);
  }

  lemma DownloadFinishes(run: seq<System>, taken: seq<Step>, n: nat) returns (steps: seq<Step>, t: System)
    requires Run(run, taken) && n < |run|
    requires run[n].access == Relaying && run[n].down.cause == ByEof && !run[n].down.shut
    ensures Continues(run[n], steps, t) && OnlyAccessRelay(steps)
    ensures t.down.shut && t.down.read == run[n].down.read && t.down.written == t.down.read
  {
    ReachableInv(run, taken, n);
    NothingInFlight(run[n].down.fifo);
    steps, t := AccessTail(run[n].down.chan), AccessFinished(run[n]);
    AccessFinishes(run[n]);
  }

  // ---------------------------------------------------------------- from one end to the other

  // The session takes messages off until TcpEof has come through.
  lemma UploadArrives(s: System) returns (steps: seq<Step>, t: System)
    requires Inv(s) && s.sessionUp && s.gateway == Relaying && s.up.cause == Present && s.up.eof
    ensures Continues(s, steps, t) && Inv(t)
    ensures t.gateway == Relaying && t.up.cause == ByEof && !t.up.shut && t.up.read == s.up.read
    decreases |s.up.fifo|
  {
    var step := GatewayDispatch;
    var u := Apply(s, step);
    StepKeepsInv(s, step);
    HeadOrRest(s.up.fifo, Close);
    if s.up.fifo[0] == Eof {
      steps, t := [step], u;
      assert steps[1..] == [];
    } else {
      EofBeforeClose(s.up);
      var rest: seq<Step>;
      rest, t := UploadArrives(u);
      FollowedBy(s, step, rest, t);
      steps := [step] + rest;
    }
  }

  lemma EofBeforeClose(l: Link)
    requires LinkInv(l, true) && l.cause == Present && l.eof
    ensures l.fifo != [] && l.fifo[0] != Close
  {
    var i :| 0 <= i < |l.fifo| && l.fifo[i] == Eof;
    assert PayloadFirst(l.fifo);
  }

  lemma DownloadArrives(s: System) returns (steps: seq<Step>, t: System)
    requires Inv(s) && s.sessionUp && s.access == Relaying && s.down.cause == Present && s.down.eof
    ensures Continues(s, steps, t) && Inv(t)
    ensures t.access == Relaying && t.down.cause == ByEof && !t.down.shut && t.down.read == s.down.read
    decreases |s.down.fifo|
  {
    var step := AccessDispatch;
    var u := Apply(s, step);
    StepKeepsInv(s, step);
    if s.down.fifo[0] == Eof {
      steps, t := [step], u;
      assert steps[1..] == [];
    } else {
      EofBeforeClose(s.down);
      var rest: seq<Step>;
      rest, t := DownloadArrives(u);
      FollowedBy(s, step, rest, t);
      steps := [step] + rest;
    }
  }

  // From every reachable state with both relays running on a living session and the sender in its table, the upload can
  // still be completed: the local side ends, all that was read arrives, is written, and the target sees the end.
  lemma UploadCanComplete(run: seq<System>, taken: seq<Step>, n: nat) returns (steps: seq<Step>, t: System)
    requires Run(run, taken) && n < |run| && run[n].sessionUp
    requires run[n].access == Relaying && run[n].gateway == Relaying && run[n].up.cause == Present
    ensures Continues(run[n], steps, t)
    ensures t.up.shut && t.up.eof && t.up.read == run[n].up.read && t.up.written == t.up.read
  {
    var s := run[n];
    ReachableInv(run, taken, n);
    var ended, first := s, [];
    if !s.up.eof {
      ended, first := Apply(s, AccessReadsEof), [AccessReadsEof];
      StepKeepsInv(s, AccessReadsEof);
      assert first[1..] == [];
    }
    var second, arrived := UploadArrives(ended);
    NothingInFlight(arrived.up.fifo);
    var third := GatewayTail(arrived.up.chan);
    t := GatewayFinished(arrived);
    GatewayFinishes(arrived);
    ContinuesConcat(ended, second, arrived, third, t);
    ContinuesConcat(s, first, ended, second + third, t);
    steps := first + (second + third);
  }

  lemma DownloadCanComplete(run: seq<System>, taken: seq<Step>, n: nat) returns (steps: seq<Step>, t: System)
    requires Run(run, taken) && n < |run| && run[n].sessionUp
    requires run[n].access == Relaying && run[n].gateway == Relaying && run[n].down.cause == Present
    ensures Continues(run[n], steps, t)
    ensures t.down.shut && t.down.eof && t.down.read == run[n].down.read && t.down.written == t.down.read
  {
    var s := run[n];
    ReachableInv(run, taken, n);
    var ended, first := s, [];
    if !s.down.eof {
      ended, first := Apply(s, GatewayReadsEof), [GatewayReadsEof];
      StepKeepsInv(s, GatewayReadsEof);
      assert first[1..] == [];
    }
    var second, arrived := DownloadArrives(ended);
    NothingInFlight(arrived.down.fifo);
    var third := AccessTail(arrived.down.chan);
    t := AccessFinished(arrived);
    AccessFinishes(arrived);
    ContinuesConcat(ended, second, arrived, third, t);
    ContinuesConcat(s, first, ended, second + third, t);
    steps := first + (second + third);
  }

  // ---------------------------------------------------------------- reading and opening

  // What a relay reads goes into the tunnel of a living session as it is; it reads as long as it relays and the end has
  // not come.
  lemma ReadsGoOut(s: System, bytes: Bytes)
    ensures Enabled(s, AccessReads(bytes)) <==> s.access == Relaying && !s.up.eof && bytes != []
    ensures Enabled(s, GatewayReads(bytes)) <==> s.gateway == Relaying && !s.down.eof && bytes != []
    ensures Enabled(s, AccessReads(bytes)) && s.sessionUp ==>
              var t := Apply(s, AccessReads(bytes));
              t.up.read == s.up.read + bytes && InFlight(t.up.fifo) == InFlight(s.up.fifo) + bytes
              && t == s.(up := t.up)
    ensures Enabled(s, GatewayReads(bytes)) && s.sessionUp ==>
              var t := Apply(s, GatewayReads(bytes));
              t.down.read == s.down.read + bytes && InFlight(t.down.fifo) == InFlight(s.down.fifo) + bytes
              && t == s.(down := t.down)
  {
    InFlightSnoc(s.up.fifo, Data(bytes));
    InFlightSnoc(s.down.fifo, Data(bytes));
  }

  // From every reachable state with the stream not begun and the session alive, an open can succeed: both relays run,
  // and both senders are in their tables.
  lemma OpenCanSucceed(run: seq<System>, taken: seq<Step>, n: nat) returns (t: System)
    requires Run(run, taken) && n < |run| && run[n].sessionUp && run[n].access == Idle
    ensures Continues(run[n], [AccessOpens, GatewayDispatch, GatewayConnects, AccessDispatch], t)
    ensures t.access == Relaying && t.gateway == Relaying && t.sessionUp
    ensures t.up.cause == Present && t.down.cause == Present
  {
    ReachableInv(run, taken, n);
    var asked := OpenIsAsked(run[n]);
    t := OpenIsAnswered(asked);
    FollowedBy(run[n], AccessOpens, [GatewayDispatch, GatewayConnects, AccessDispatch], t);
  }

  lemma OpenIsAsked(s: System) returns (asked: System)
    requires Inv(s) && s.sessionUp && s.access == Idle
    ensures Enabled(s, AccessOpens) && asked == Apply(s, AccessOpens) && asked.sessionUp
    ensures asked.access == Opening && asked.gateway == Idle && asked.down.cause == Present
    ensures asked.up.fifo == [Open] && asked.down.fifo == []
  {
    asked := Apply(s, AccessOpens);
  }

  lemma OpenIsAnswered(asked: System) returns (t: System)
    requires asked.sessionUp && asked.access == Opening && asked.gateway == Idle && asked.down.cause == Present
    requires asked.up.fifo == [Open] && asked.down.fifo == []
    ensures Continues(asked, [GatewayDispatch, GatewayConnects, AccessDispatch], t)
    ensures t.access == Relaying && t.gateway == Relaying && t.sessionUp
    ensures t.up.cause == Present && t.down.cause == Present
  {
    var dispatched := Apply(asked, GatewayDispatch);
    var connected := Apply(dispatched, GatewayConnects);
    assert connected.down.fifo == [OpenOk];
    t := Apply(connected, AccessDispatch);
    OneStep(connected, AccessDispatch);
    FollowedBy(dispatched, GatewayConnects, [AccessDispatch], t);
    FollowedBy(asked, GatewayDispatch, [GatewayConnects, AccessDispatch], t);
  }
}
