// One TCP stream through the tunnel: the open handshake, the two relays, and half-close in both directions
// (crates/ws-net-access/src/tcp.rs, crates/ws-net-gateway/src/tcp.rs and the dispatch of both sessions).
// The tunnel is a queue in each direction that is lost as a whole with the session; TunnelQueue proves it is one.
module HalfClose {
  import opened Basics

  datatype Msg = Open | OpenOk | Error | Data(bytes: Bytes) | Eof | Close

  // Why the sink's sender is no longer in its table. `Missing`: not registered yet. `ByLoss`: session end, the sink's
  // own relay ending, or data that found the sink's relay gone.
  datatype Cause = Missing | Present | ByEof | ByClose | ByLoss

  // One direction. `read` is everything the source relay took off its socket, `lost` the part of it that a failing
  // read, or an abort, kept from the tunnel; `eof` tells whether it reached the end, `ended` that it reads no more.
  // `chan` is the sink relay's channel, with what is left of the chunk in hand at its front; `written` what the sink
  // wrote to its socket, `shut` whether it shut it down.
  datatype Link = Link(
    read: Bytes, lost: Bytes, eof: bool, ended: bool,
    fifo: seq<Msg>, cause: Cause, chan: seq<Bytes>, written: Bytes, shut: bool)

  // `Stopping`: the gateway relay is over and its receiver gone, but its table entries are still there.
  datatype Phase = Idle | Opening | Relaying | Stopping | Ended

  // `aborted`: the access handler was aborted. `told`: the access side has sent a Close. `unknown`: the stream is
  // among the unknown ones the access side has already answered.
  datatype System = System(
    access: Phase, gateway: Phase, up: Link, down: Link, cancelled: bool, sessionUp: bool,
    aborted: bool, told: bool, unknown: bool)

  datatype Step =
    | AccessOpens
    | AccessTimesOut
    | AccessReads(bytes: Bytes)
    | AccessReadsEof
    | AccessWrites(n: nat)
    | AccessShuts
    | AccessEnds(lost: Bytes)
    | AccessAborts(lost: Bytes, unregistered: bool)
    | AccessDispatch
    | GatewayDispatch
    | GatewayRefuses
    | GatewayConnects
    | GatewayConnectFails
    | GatewayReads(bytes: Bytes)
    | GatewayReadsEof
    | GatewayWrites(n: nat)
    | GatewayShuts
    | GatewayStops(lost: Bytes)
    | GatewayReports
    | GatewayLeaves
    | SessionEnds

  function NewLink(): Link {
    Link([], [], false, false, [], Missing, [], [], false)
  }

  function Start(): System {
    System(Idle, Idle, NewLink(), NewLink(), false, true, false, false, false)
  }

  // ---------------------------------------------------------------- one link's operations

  function Put(l: Link, sessionUp: bool, m: Msg): Link {
    if sessionUp then l.(fifo := l.fifo + [m]) else l
  }

  function Read(l: Link, sessionUp: bool, bytes: Bytes): Link {
    Put(l.(read := l.read + bytes), sessionUp, Data(bytes))
  }

  function ReadEof(l: Link, sessionUp: bool): Link {
    Put(l.(eof := true), sessionUp, Eof)
  }

  // The source stops reading; `lost` is what it had taken off the socket and not passed on.
  function Stop(l: Link, lost: Bytes): Link {
    l.(read := l.read + lost, lost := l.lost + lost, ended := true)
  }

  // A read fails, or an abort strikes, only where the source still reads.
  predicate MayLose(l: Link, reading: bool, lost: Bytes) {
    lost != [] ==> reading && !l.eof
  }

  // The session takes the next message off the tunnel. Data for a sender whose relay is gone drops the sender; data
  // without a sender is discarded.
  function Dispatch(l: Link, relayAlive: bool): Link
    requires l.fifo != []
  {
    var rest := l.(fifo := l.fifo[1..]);
    match l.fifo[0]
    case Data(bytes) =>
      if l.cause != Present then rest
      else if relayAlive then rest.(chan := l.chan + [bytes]) else rest.(cause := ByLoss)
    case Eof => if l.cause == Present then rest.(cause := ByEof) else rest
    case Close => if l.cause == Present then rest.(cause := ByClose) else rest
    case _ => rest
  }

  // One write to the socket moves the first n bytes of the chunk in hand.
  function Write(l: Link, n: nat): Link
    requires l.chan != [] && n <= |l.chan[0]|
  {
    var left := if n == |l.chan[0]| then l.chan[1..] else [l.chan[0][n..]] + l.chan[1..];
    l.(written := l.written + l.chan[0][..n], chan := left)
  }

  // `recv()` yields None: nothing buffered and the sender gone from its table.
  predicate AtEnd(l: Link) {
    l.chan == [] && l.cause != Present && l.cause != Missing
  }

  function Lose(l: Link): Link {
    if l.cause == Present then l.(cause := ByLoss) else l
  }

  // ---------------------------------------------------------------- the system

  predicate Listening(access: Phase) {
    access == Opening || access == Relaying
  }

  // The gateway's task for the stream exists and can be cancelled.
  predicate Running(gateway: Phase) {
    gateway == Opening || gateway == Relaying || gateway == Stopping
  }

  ghost predicate Enabled(s: System, step: Step) {
    match step
    case AccessOpens => s.access == Idle && s.sessionUp
    case AccessTimesOut => s.access == Opening
    case AccessReads(bytes) => s.access == Relaying && !s.up.eof && bytes != []
    case AccessReadsEof => s.access == Relaying && !s.up.eof
    case AccessWrites(n) => s.access == Relaying && s.down.chan != [] && n <= |s.down.chan[0]|
    case AccessShuts => s.access == Relaying && AtEnd(s.down) && !s.down.shut
    case AccessEnds(lost) => s.access == Relaying && MayLose(s.up, true, lost)
    case AccessAborts(lost, _) =>
      ((s.access == Idle && s.sessionUp) || Listening(s.access)) && MayLose(s.up, s.access == Relaying, lost)
    case AccessDispatch => s.sessionUp && s.down.fifo != []
    case GatewayDispatch => s.sessionUp && s.up.fifo != []
    case GatewayRefuses => s.sessionUp && s.up.fifo != [] && s.up.fifo[0] == Open && s.gateway == Idle
    case GatewayConnects => s.gateway == Opening
    case GatewayConnectFails => s.gateway == Opening
    case GatewayReads(bytes) => s.gateway == Relaying && !s.down.eof && bytes != []
    case GatewayReadsEof => s.gateway == Relaying && !s.down.eof
    case GatewayWrites(n) => s.gateway == Relaying && s.up.chan != [] && n <= |s.up.chan[0]|
    case GatewayShuts => s.gateway == Relaying && AtEnd(s.up) && !s.up.shut
    case GatewayStops(lost) => s.gateway == Relaying && MayLose(s.down, true, lost)
    case GatewayReports => s.gateway == Stopping
    case GatewayLeaves => s.gateway == Stopping
    case SessionEnds => s.sessionUp
  }

  // Data that finds the handler gone, or, once, no sender at all, is answered with Close.
  predicate Bounces(s: System)
    requires s.down.fifo != []
  {
    s.down.fifo[0].Data? && if s.down.cause == Present then !Listening(s.access) else !s.unknown
  }

  // The open is refused: the handler takes its entry out and leaves.
  predicate Refused(s: System)
    requires s.down.fifo != []
  {
    s.access == Opening && (s.down.fifo[0] == Close || s.down.fifo[0] == Error)
  }

  function AccessDispatched(s: System): System
    requires s.down.fifo != []
  {
    var m := s.down.fifo[0];
    var down := Dispatch(s.down, Listening(s.access));
    s.(down := if Refused(s) then Lose(down) else down,
       access := if Refused(s) then Ended else if s.access == Opening && m == OpenOk then Relaying else s.access,
       up := if Refused(s) then Stop(s.up, []) else if Bounces(s) then Put(s.up, s.sessionUp, Close) else s.up,
       told := s.told || Bounces(s),
       unknown := s.unknown || (m.Data? && s.down.cause != Present))
  }

  function GatewayDispatched(s: System): System
    requires s.up.fifo != []
  {
    var m := s.up.fifo[0];
    s.(up := Dispatch(s.up, s.gateway == Relaying),
       gateway := if m == Open && s.gateway == Idle then Opening else s.gateway,
       cancelled := s.cancelled || (m == Close && Running(s.gateway)),
       down := if m.Data? && s.up.cause == Present && s.gateway != Relaying
               then Put(s.down, s.sessionUp, Close) else s.down)
  }

  // The handler's entry goes, and its Close is sent.
  function AccessLeft(s: System, lost: Bytes): System {
    s.(access := Ended,
       down := Lose(s.down),
       up := Put(Stop(s.up, lost), s.sessionUp, Close),
       told := s.told || s.sessionUp)
  }

  // An aborted handler sends nothing more; its entry stays unless it had just removed it. One that had registered but
  // not sent Open yet is aborted from Idle.
  function AccessAborted(s: System, lost: Bytes, unregistered: bool): System {
    var down := if s.access == Idle then s.down.(cause := Present) else s.down;
    s.(access := Ended, aborted := true, down := if unregistered then Lose(down) else down, up := Stop(s.up, lost))
  }

  function Apply(s: System, step: Step): System
    requires Enabled(s, step)
  {
    match step
    case AccessOpens => s.(access := Opening, down := s.down.(cause := Present), up := Put(s.up, s.sessionUp, Open))
    case AccessTimesOut => AccessLeft(s, [])
    case AccessReads(bytes) => s.(up := Read(s.up, s.sessionUp, bytes))
    case AccessReadsEof => s.(up := ReadEof(s.up, s.sessionUp))
    case AccessWrites(n) => s.(down := Write(s.down, n))
    case AccessShuts => s.(down := s.down.(shut := true))
    case AccessEnds(lost) => AccessLeft(s, lost)
    case AccessAborts(lost, unregistered) => AccessAborted(s, lost, unregistered)
    case AccessDispatch => AccessDispatched(s)
    case GatewayDispatch => GatewayDispatched(s)
    case GatewayConnects =>
      s.(gateway := Relaying, up := s.up.(cause := if s.sessionUp then Present else ByLoss),
         down := Put(s.down, s.sessionUp, OpenOk))
    case GatewayRefuses =>
      s.(up := Dispatch(s.up, false), down := Put(s.down, s.sessionUp, Error))
    case GatewayConnectFails =>
      s.(gateway := Ended, down := Put(Put(Stop(s.down, []), s.sessionUp, Error), s.sessionUp, Close))
    case GatewayReads(bytes) => s.(down := Read(s.down, s.sessionUp, bytes))
    case GatewayReadsEof => s.(down := ReadEof(s.down, s.sessionUp))
    case GatewayWrites(n) => s.(up := Write(s.up, n))
    case GatewayShuts => s.(up := s.up.(shut := true))
    case GatewayStops(lost) => s.(gateway := Stopping, down := Stop(s.down, lost))
    case GatewayReports => s.(down := Put(s.down, s.sessionUp, Error))
    case GatewayLeaves => s.(gateway := Ended, up := Lose(s.up), down := Put(s.down, s.sessionUp, Close))
    case SessionEnds =>
      s.(sessionUp := false, cancelled := true,
         up := Lose(s.up).(fifo := []), down := Lose(s.down).(fifo := []))
  }

  // ---------------------------------------------------------------- the invariant of a link

  function Cat(chunks: seq<Bytes>): Bytes {
    if chunks == [] then [] else chunks[0] + Cat(chunks[1..])
  }

  function InFlight(fifo: seq<Msg>): Bytes {
    if fifo == [] then [] else (if fifo[0].Data? then fifo[0].bytes else []) + InFlight(fifo[1..])
  }

  lemma {:induction false} CatSnoc(chunks: seq<Bytes>, c: Bytes)
    ensures Cat(chunks + [c]) == Cat(chunks) + c
  {
    if chunks != [] {
      assert (chunks + [c])[1..] == chunks[1..] + [c];
      CatSnoc(chunks[1..], c);
    } else {
      assert [c][1..] == [];
    }
  }

  lemma {:induction false} InFlightSnoc(fifo: seq<Msg>, m: Msg)
    ensures InFlight(fifo + [m]) == InFlight(fifo) + (if m.Data? then m.bytes else [])
  {
    if fifo != [] {
      assert (fifo + [m])[1..] == fifo[1..] + [m];
      InFlightSnoc(fifo[1..], m);
    } else {
      assert [m][1..] == [];
    }
  }

  ghost predicate NoPayload(fifo: seq<Msg>) {
    forall i :: 0 <= i < |fifo| ==> !fifo[i].Data? && !fifo[i].Eof?
  }

  lemma {:induction false} NothingInFlight(fifo: seq<Msg>)
    requires NoPayload(fifo)
    ensures InFlight(fifo) == []
  {
    if fifo != [] {
      assert forall i :: 0 <= i < |fifo[1..]| ==> fifo[1..][i] == fifo[i + 1];
      NothingInFlight(fifo[1..]);
    }
  }

  lemma DataIsPayload(fifo: seq<Msg>)
    requires fifo != [] && fifo[0].Data?
    ensures !NoPayload(fifo)
  {
  }

  // The source sends no payload behind Eof or Close.
  ghost predicate PayloadFirst(fifo: seq<Msg>) {
    forall i, j :: 0 <= i < j < |fifo| && (fifo[i].Eof? || fifo[i].Close?) ==> !fifo[j].Data? && !fifo[j].Eof?
  }

  ghost predicate Ordered(l: Link) {
    && PayloadFirst(l.fifo)
    && (Msg.Eof in l.fifo ==> l.eof)
    && (Msg.Close in l.fifo ==> l.ended)
  }

  ghost predicate Conserved(l: Link) {
    l.read == ((l.written + Cat(l.chan)) + InFlight(l.fifo)) + l.lost
  }

  ghost predicate PrefixLink(l: Link) {
    l.written + Cat(l.chan) <= l.read
  }

  ghost predicate LinkInv(l: Link, sessionUp: bool) {
    && Ordered(l) && PrefixLink(l)
    && (l.cause == Missing ==> NoPayload(l.fifo) && l.read == [] && l.written == [] && l.chan == [])
    && (l.cause == Missing ==> !l.eof && !l.shut)
    && (l.cause == Present ==> sessionUp && (l.eof ==> Msg.Eof in l.fifo) && !l.shut)
    && (l.cause == ByEof ==> l.eof && NoPayload(l.fifo))
    && (l.cause == ByClose ==> l.ended && !l.eof && NoPayload(l.fifo))
    && (l.cause != ByLoss ==> Conserved(l))
    && (l.lost != [] ==> l.ended && !l.eof)
    && (!sessionUp ==> l.fifo == [])
    && (l.shut ==> AtEnd(l))
  }

  lemma ReadKeepsLink(l: Link, sessionUp: bool, bytes: Bytes)
    requires LinkInv(l, sessionUp) && !l.eof && !l.ended && l.cause != Missing
    ensures LinkInv(Read(l, sessionUp, bytes), sessionUp)
  {
    InFlightSnoc(l.fifo, Data(bytes));
    if l.cause == Present {
      assert l.read + bytes == ((l.written + Cat(l.chan)) + (InFlight(l.fifo) + bytes)) + [];
    }
  }

  lemma ControlComesLast(fifo: seq<Msg>, m: Msg)
    requires PayloadFirst(fifo) && !m.Data? && !m.Eof?
    ensures PayloadFirst(fifo + [m]) && InFlight(fifo + [m]) == InFlight(fifo)
    ensures NoPayload(fifo) ==> NoPayload(fifo + [m])
    ensures forall x: Msg :: x in fifo + [m] <==> x in fifo || x == m
  {
    InFlightSnoc(fifo, m);
  }

  lemma ControlKeepsLink(l: Link, sessionUp: bool, m: Msg)
    requires LinkInv(l, sessionUp) && (m == Open || m == OpenOk || m == Error || (m == Close && l.ended))
    ensures LinkInv(Put(l, sessionUp, m), sessionUp)
  {
    ControlComesLast(l.fifo, m);
  }

  lemma ReadEofKeepsLink(l: Link, sessionUp: bool)
    requires LinkInv(l, sessionUp) && !l.eof && !l.ended && l.cause != Missing
    ensures LinkInv(ReadEof(l, sessionUp), sessionUp)
  {
    InFlightSnoc(l.fifo, Eof);
    if sessionUp {
      assert (l.fifo + [Eof])[|l.fifo|] == Eof;
    }
  }

  lemma StopKeepsLink(l: Link, sessionUp: bool, lost: Bytes)
    requires LinkInv(l, sessionUp) && !l.ended && (lost != [] ==> !l.eof && l.cause != Missing)
    ensures LinkInv(Stop(l, lost), sessionUp)
  {
    assert l.lost == [];
    assert l.read + lost == (l.read + []) + lost;
  }

  lemma DispatchKeepsOrder(l: Link, relayAlive: bool)
    requires Ordered(l) && l.fifo != []
    ensures Ordered(Dispatch(l, relayAlive))
  {
    assert forall i :: 0 <= i < |l.fifo[1..]| ==> l.fifo[1..][i] == l.fifo[i + 1];
    HeadOrRest(l.fifo, Eof);
    HeadOrRest(l.fifo, Close);
  }

  lemma DataKeepsConservation(l: Link)
    requires Conserved(l) && l.fifo != [] && l.fifo[0].Data? && l.cause == Present
    ensures Conserved(Dispatch(l, true))
  {
    var b, d := l.fifo[0].bytes, Dispatch(l, true);
    CatSnoc(l.chan, b);
    assert (l.written + Cat(l.chan)) + (b + InFlight(d.fifo)) == (l.written + (Cat(l.chan) + b)) + InFlight(d.fifo);
  }

  lemma DataKeepsLink(l: Link, relayAlive: bool)
    requires LinkInv(l, true) && l.fifo != [] && l.fifo[0].Data?
    ensures LinkInv(Dispatch(l, relayAlive), true)
  {
    var d := Dispatch(l, relayAlive);
    DispatchKeepsOrder(l, relayAlive);
    assert l.fifo == [l.fifo[0]] + d.fifo;
    if l.cause == Present && relayAlive {
      DataKeepsConservation(l);
      assert d.written + Cat(d.chan) <= (d.written + Cat(d.chan)) + InFlight(d.fifo) <= d.read;
    }
  }

  lemma NothingBehindEnd(fifo: seq<Msg>)
    requires PayloadFirst(fifo) && fifo != [] && (fifo[0].Eof? || fifo[0].Close?)
    ensures NoPayload(fifo[1..]) && InFlight(fifo) == InFlight(fifo[1..]) == []
  {
    assert forall i :: 0 <= i < |fifo[1..]| ==> fifo[1..][i] == fifo[i + 1];
    NothingInFlight(fifo[1..]);
  }

  lemma EndKeepsLink(l: Link, relayAlive: bool)
    requires LinkInv(l, true) && l.fifo != [] && (l.fifo[0].Eof? || l.fifo[0].Close?)
    ensures LinkInv(Dispatch(l, relayAlive), true)
  {
    DispatchKeepsOrder(l, relayAlive);
    NothingBehindEnd(l.fifo);
    HeadOrRest(l.fifo, Eof);
  }

  lemma HeadOrRest(fifo: seq<Msg>, m: Msg)
    requires fifo != []
    ensures m in fifo <==> fifo[0] == m || m in fifo[1..]
  {
    assert fifo == [fifo[0]] + fifo[1..];
  }

  lemma SignalCarriesNothing(fifo: seq<Msg>)
    requires fifo != [] && (fifo[0].Open? || fifo[0].OpenOk? || fifo[0].Error?)
    ensures InFlight(fifo) == InFlight(fifo[1..]) && (NoPayload(fifo) ==> NoPayload(fifo[1..]))
  {
    assert forall i :: 0 <= i < |fifo[1..]| ==> fifo[1..][i] == fifo[i + 1];
  }

  lemma SignalKeepsLink(l: Link, relayAlive: bool)
    requires LinkInv(l, true) && l.fifo != [] && (l.fifo[0].Open? || l.fifo[0].OpenOk? || l.fifo[0].Error?)
    ensures LinkInv(Dispatch(l, relayAlive), true)
  {
    DispatchKeepsOrder(l, relayAlive);
    SignalCarriesNothing(l.fifo);
    HeadOrRest(l.fifo, Eof);
  }

  lemma DispatchKeepsLink(l: Link, relayAlive: bool)
    requires LinkInv(l, true) && l.fifo != []
    ensures LinkInv(Dispatch(l, relayAlive), true)
  {
    match l.fifo[0]
    case Data(_) => DataKeepsLink(l, relayAlive);
    case Eof => EndKeepsLink(l, relayAlive);
    case Close => EndKeepsLink(l, relayAlive);
    case _ => SignalKeepsLink(l, relayAlive);
  }

  lemma WriteKeepsLink(l: Link, sessionUp: bool, n: nat)
    requires LinkInv(l, sessionUp) && l.chan != [] && n <= |l.chan[0]|
    ensures LinkInv(Write(l, n), sessionUp)
  {
    var c, w := l.chan[0], Write(l, n);
    assert c == c[..n] + c[n..];
    assert Cat(w.chan) == c[n..] + Cat(l.chan[1..]);
    assert l.written + (c + Cat(l.chan[1..])) == (l.written + c[..n]) + (c[n..] + Cat(l.chan[1..]));
  }

  lemma SessionEndKeepsLink(l: Link)
    requires LinkInv(l, true)
    ensures LinkInv(Lose(l).(fifo := []), false)
  {
    if l.cause != Present && l.cause != ByLoss {
      NothingInFlight(l.fifo);
    }
  }

  // ---------------------------------------------------------------- the invariant of the handshake

  ghost predicate Inv(s: System) {
    LinkInv(s.up, s.sessionUp) && LinkInv(s.down, s.sessionUp) && Handshake(s)
  }

  ghost predicate Handshake(s: System) {
    // The access side registers its sender before it sends Open, the gateway side before it sends OpenOk.
    && (s.down.cause == Missing <==> s.access == Idle)
    && (s.gateway == Idle || s.gateway == Opening ==> s.up.cause == Missing)
    && (s.up.cause == Missing ==> s.gateway != Relaying && s.gateway != Stopping && s.access != Relaying)
    && (s.access == Idle ==> s.gateway == Idle && s.up.fifo == [] && s.down.fifo == [])
    && (OpenOk in s.down.fifo ==> s.up.cause != Missing)
    && s.access != Stopping && (s.up.ended <==> s.access == Ended)
    && (s.down.ended <==> s.gateway == Stopping || s.gateway == Ended)
    && (!s.sessionUp ==> s.cancelled)
    // The gateway's sender goes away only because of TcpEof, a cancellation, or the relay's own end.
    && (s.up.cause == Present ==> s.gateway == Relaying || s.gateway == Stopping)
    && (s.up.cause == ByClose || s.up.cause == ByLoss ==> s.cancelled || s.gateway == Stopping || s.gateway == Ended)
    // The access side's sender goes away only because of TcpEof, Close, the session's end, or its handler's own end.
    && (s.down.cause == ByLoss ==> !s.sessionUp || s.access == Ended)
    && (s.told ==> s.up.ended)
  }

  // Only an ended handler's data bounces, so the Close that answers it comes after all payload.
  lemma BounceComesLast(s: System)
    requires Inv(s) && Enabled(s, AccessDispatch) && Bounces(s)
    ensures s.up.ended
  {
    DataIsPayload(s.down.fifo);
  }

  // ---------------------------------------------------------------- every step keeps the handshake

  lemma AccessStepKeepsHandshake(s: System, step: Step)
    requires Handshake(s) && Enabled(s, step)
    requires step.AccessOpens? || step.AccessTimesOut? || step.AccessReads? || step.AccessReadsEof?
             || step.AccessWrites? || step.AccessShuts? || step.AccessEnds?
    ensures Handshake(Apply(s, step))
  {
  }

  lemma AbortKeepsHandshake(s: System, step: Step)
    requires Handshake(s) && Enabled(s, step) && step.AccessAborts?
    ensures Handshake(Apply(s, step))
  {
  }

  lemma GatewayStepKeepsHandshake(s: System, step: Step)
    requires Handshake(s) && Enabled(s, step)
    requires step.GatewayRefuses? || step.GatewayReads? || step.GatewayReadsEof? || step.GatewayWrites?
             || step.GatewayShuts? || step.GatewayStops? || step.GatewayReports?
    ensures Handshake(Apply(s, step))
  {
  }

  lemma GatewayTurnKeepsHandshake(s: System, step: Step)
    requires Handshake(s) && Enabled(s, step)
    requires step.GatewayConnects? || step.GatewayConnectFails? || step.GatewayLeaves? || step.SessionEnds?
    ensures Handshake(Apply(s, step))
  {
  }

  lemma RefusalKeepsHandshake(s: System)
    requires Handshake(s) && Enabled(s, AccessDispatch) && Refused(s)
    ensures Handshake(AccessDispatched(s))
  {
  }

  lemma AccessDispatchKeepsHandshake(s: System)
    requires Handshake(s) && Enabled(s, AccessDispatch) && !Refused(s) && (Bounces(s) ==> s.up.ended)
    ensures Handshake(AccessDispatched(s))
  {
    HeadOrRest(s.down.fifo, OpenOk);
  }

  lemma GatewayDispatchKeepsHandshake(s: System)
    requires Handshake(s) && Enabled(s, GatewayDispatch)
    ensures Handshake(GatewayDispatched(s))
  {
  }

  lemma StepKeepsHandshake(s: System, step: Step)
    requires Inv(s) && Enabled(s, step)
    ensures Handshake(Apply(s, step))
  {
    if step.AccessDispatch? {
      if Refused(s) {
        RefusalKeepsHandshake(s);
      } else {
        if Bounces(s) {
          BounceComesLast(s);
        }
        AccessDispatchKeepsHandshake(s);
      }
    } else if step.GatewayDispatch? {
      GatewayDispatchKeepsHandshake(s);
    } else if step.GatewayConnects? || step.GatewayConnectFails? || step.GatewayLeaves? || step.SessionEnds? {
      GatewayTurnKeepsHandshake(s, step);
    } else if step.GatewayRefuses? || step.GatewayReads? || step.GatewayReadsEof? || step.GatewayWrites?
              || step.GatewayShuts? || step.GatewayStops? || step.GatewayReports?
    {
      GatewayStepKeepsHandshake(s, step);
    } else if step.AccessAborts? {
      AbortKeepsHandshake(s, step);
    } else {
      AccessStepKeepsHandshake(s, step);
    }
  }

  // ---------------------------------------------------------------- every step keeps both links

  ghost predicate Links(s: System) {
    LinkInv(s.up, s.sessionUp) && LinkInv(s.down, s.sessionUp)
  }

  // A timed-out open and the end of a relay leave in the same way.
  lemma LeaveKeepsLinks(s: System, lost: Bytes)
    requires Inv(s) && Listening(s.access) && MayLose(s.up, s.access == Relaying, lost)
    ensures Links(AccessLeft(s, lost))
  {
    StopKeepsLink(s.up, s.sessionUp, lost);
    ControlKeepsLink(Stop(s.up, lost), s.sessionUp, Close);
  }

  lemma RegisterKeepsLink(l: Link)
    requires LinkInv(l, true) && l.cause == Missing
    ensures LinkInv(l.(cause := Present), true)
  {
    NothingInFlight(l.fifo);
  }

  lemma AbortKeepsLinks(s: System, lost: Bytes, unregistered: bool)
    requires Inv(s) && Enabled(s, AccessAborts(lost, unregistered))
    ensures Links(AccessAborted(s, lost, unregistered))
  {
    StopKeepsLink(s.up, s.sessionUp, lost);
    AbandonKeepsLink(s.down, s.access == Idle, unregistered, s.sessionUp);
  }

  lemma AbandonKeepsLink(l: Link, idle: bool, unregistered: bool, sessionUp: bool)
    requires LinkInv(l, sessionUp) && (idle ==> sessionUp && l.cause == Missing)
    ensures var down := if idle then l.(cause := Present) else l;
            LinkInv(if unregistered then Lose(down) else down, sessionUp)
  {
    if idle {
      RegisterKeepsLink(l);
    }
    LoseKeepsLink(if idle then l.(cause := Present) else l, sessionUp);
  }

  lemma LoseKeepsLink(l: Link, sessionUp: bool)
    requires LinkInv(l, sessionUp)
    ensures LinkInv(Lose(l), sessionUp)
  {
  }

  lemma AccessStepKeepsLinks(s: System, step: Step)
    requires Inv(s) && Enabled(s, step)
    requires step.AccessOpens? || step.AccessTimesOut? || step.AccessReads? || step.AccessReadsEof?
             || step.AccessWrites? || step.AccessShuts? || step.AccessEnds? || step.AccessAborts?
    ensures Links(Apply(s, step))
  {
    match step
    case AccessOpens => ControlKeepsLink(s.up, s.sessionUp, Open); RegisterKeepsLink(s.down);
    case AccessTimesOut => LeaveKeepsLinks(s, []);
    case AccessReads(bytes) => ReadKeepsLink(s.up, s.sessionUp, bytes);
    case AccessReadsEof => ReadEofKeepsLink(s.up, s.sessionUp);
    case AccessWrites(n) => WriteKeepsLink(s.down, s.sessionUp, n);
    case AccessShuts =>
    case AccessEnds(lost) => LeaveKeepsLinks(s, lost);
    case AccessAborts(lost, unregistered) => AbortKeepsLinks(s, lost, unregistered);
  }

  lemma ConnectFailKeepsLink(l: Link, sessionUp: bool)
    requires LinkInv(l, sessionUp) && !l.ended
    ensures LinkInv(Put(Put(Stop(l, []), sessionUp, Error), sessionUp, Close), sessionUp)
  {
    StopKeepsLink(l, sessionUp, []);
    ControlKeepsLink(Stop(l, []), sessionUp, Error);
    ControlKeepsLink(Put(Stop(l, []), sessionUp, Error), sessionUp, Close);
  }

  lemma GatewayRelayKeepsLinks(s: System, step: Step)
    requires Inv(s) && Enabled(s, step)
    requires step.GatewayReads? || step.GatewayReadsEof? || step.GatewayWrites? || step.GatewayShuts?
             || step.GatewayStops?
    ensures Links(Apply(s, step))
  {
    match step
    case GatewayReads(bytes) => ReadKeepsLink(s.down, s.sessionUp, bytes);
    case GatewayReadsEof => ReadEofKeepsLink(s.down, s.sessionUp);
    case GatewayWrites(n) => WriteKeepsLink(s.up, s.sessionUp, n);
    case GatewayShuts =>
    case GatewayStops(lost) => StopKeepsLink(s.down, s.sessionUp, lost);
  }

  lemma RefuseKeepsLinks(s: System)
    requires Inv(s) && Enabled(s, GatewayRefuses)
    ensures Links(Apply(s, GatewayRefuses))
  {
    SignalKeepsLink(s.up, false);
    ControlKeepsLink(s.down, s.sessionUp, Error);
  }

  lemma ConnectKeepsLinks(s: System)
    requires Inv(s) && Enabled(s, GatewayConnects)
    ensures Links(Apply(s, GatewayConnects))
  {
    if s.sessionUp {
      RegisterKeepsLink(s.up);
    }
    ControlKeepsLink(s.down, s.sessionUp, OpenOk);
  }

  lemma ReportKeepsLinks(s: System, step: Step)
    requires Inv(s) && Enabled(s, step) && (step.GatewayReports? || step.GatewayLeaves?)
    ensures Links(Apply(s, step))
  {
    ControlKeepsLink(s.down, s.sessionUp, if step.GatewayReports? then Error else Close);
    LoseKeepsLink(s.up, s.sessionUp);
  }

  lemma RefusalKeepsLinks(s: System)
    requires Inv(s) && Enabled(s, AccessDispatch) && Refused(s)
    ensures Links(AccessDispatched(s))
  {
    DispatchKeepsLink(s.down, true);
    StopKeepsLink(s.up, true, []);
  }

  lemma AccessDispatchKeepsLinks(s: System)
    requires Inv(s) && Enabled(s, AccessDispatch) && !Refused(s)
    ensures Links(AccessDispatched(s))
  {
    DispatchKeepsLink(s.down, Listening(s.access));
    if Bounces(s) {
      BounceComesLast(s);
      ControlKeepsLink(s.up, true, Close);
    }
  }

  lemma GatewayDispatchKeepsLinks(s: System)
    requires Inv(s) && Enabled(s, GatewayDispatch)
    ensures Links(GatewayDispatched(s))
  {
    DispatchKeepsLink(s.up, s.gateway == Relaying);
    if s.up.cause == Present && s.gateway != Relaying {
      ControlKeepsLink(s.down, true, Close);
    }
  }

  lemma StepKeepsLinks(s: System, step: Step)
    requires Inv(s) && Enabled(s, step)
    ensures Links(Apply(s, step))
  {
    if step.AccessDispatch? {
      if Refused(s) {
        RefusalKeepsLinks(s);
      } else {
        AccessDispatchKeepsLinks(s);
      }
    } else if step.GatewayDispatch? {
      GatewayDispatchKeepsLinks(s);
    } else if step.SessionEnds? {
      SessionEndKeepsLink(s.up);
      SessionEndKeepsLink(s.down);
    } else if step.AccessOpens? || step.AccessTimesOut? || step.AccessReads? || step.AccessReadsEof?
              || step.AccessWrites? || step.AccessShuts? || step.AccessEnds? || step.AccessAborts?
    {
      AccessStepKeepsLinks(s, step);
    } else if step.GatewayReads? || step.GatewayReadsEof? || step.GatewayWrites? || step.GatewayShuts?
              || step.GatewayStops?
    {
      GatewayRelayKeepsLinks(s, step);
    } else if step.GatewayRefuses? {
      RefuseKeepsLinks(s);
    } else if step.GatewayConnects? {
      ConnectKeepsLinks(s);
    } else if step.GatewayConnectFails? {
      ConnectFailKeepsLink(s.down, s.sessionUp);
    } else {
      ReportKeepsLinks(s, step);
    }
  }

  lemma StepKeepsInv(s: System, step: Step)
    requires Inv(s) && Enabled(s, step)
    ensures Inv(Apply(s, step))
  {
    StepKeepsLinks(s, step);
    StepKeepsHandshake(s, step);
  }

  ghost predicate Run(run: seq<System>, steps: seq<Step>) {
    && |run| == |steps| + 1 && run[0] == Start()
    && forall i :: 0 <= i < |steps| ==> Stepped(run, steps, i)
  }

  ghost predicate Stepped(run: seq<System>, steps: seq<Step>, i: nat)
    requires |run| == |steps| + 1 && i < |steps|
  {
    Enabled(run[i], steps[i]) && run[i + 1] == Apply(run[i], steps[i])
  }

  lemma {:induction false} ReachableInv(run: seq<System>, steps: seq<Step>, n: nat)
    requires Run(run, steps) && n < |run|
    ensures Inv(run[n])
  {
    if n > 0 {
      ReachableInv(run, steps, n - 1);
      assert Stepped(run, steps, n - 1);
      StepKeepsInv(run[n - 1], steps[n - 1]);
    }
  }

  // ---------------------------------------------------------------- the theorems

  // Upstream: whenever the gateway's relay shuts the target's write half without having been cancelled, it is because
  // of TcpEof, the access side had read its local socket to the end, and every byte it read has been written.
  lemma UpstreamHalfCloseIsComplete(run: seq<System>, steps: seq<Step>, n: nat)
    requires Run(run, steps) && n < |run| && Enabled(run[n], GatewayShuts) && !run[n].cancelled
    ensures run[n].up.cause == ByEof && run[n].up.eof && run[n].up.written == run[n].up.read
  {
    ReachableInv(run, steps, n);
    NothingInFlight(run[n].up.fifo);
  }

  // The gateway's relay ended on a failing read that had already taken bytes off the target's socket.
  ghost predicate LostByFailingRead(steps: seq<Step>, n: nat)
    requires n <= |steps|
  {
    exists i :: 0 <= i < n && steps[i].GatewayStops? && steps[i].lost != []
  }

  lemma StepLoses(s: System, step: Step)
    requires Enabled(s, step)
    ensures Apply(s, step).down.lost == s.down.lost + (if step.GatewayStops? then step.lost else [])
  {
    if step.AccessDispatch? {
      assert Dispatch(s.down, Listening(s.access)).lost == s.down.lost;
    } else if !step.GatewayStops? {
      assert Apply(s, step).down.lost == s.down.lost;
    }
  }

  lemma {:induction false} LostExactlyByFailingRead(run: seq<System>, steps: seq<Step>, n: nat)
    requires Run(run, steps) && n < |run|
    ensures run[n].down.lost != [] <==> LostByFailingRead(steps, n)
  {
    if n > 0 {
      LostExactlyByFailingRead(run, steps, n - 1);
      assert Stepped(run, steps, n - 1);
      StepLoses(run[n - 1], steps[n - 1]);
    }
  }

  // Downstream: while the session lives, the access relay shuts the local socket only after writing all that the
  // gateway passed on. That is every byte read from the target, exactly unless a failing read ended the gateway's
  // relay with bytes in hand; after TcpEof it always is.
  lemma DownstreamHalfCloseIsComplete(run: seq<System>, steps: seq<Step>, n: nat)
    requires Run(run, steps) && n < |run| && Enabled(run[n], AccessShuts) && run[n].sessionUp
    ensures run[n].down.read == run[n].down.written + run[n].down.lost
    ensures run[n].down.written == run[n].down.read <==> !LostByFailingRead(steps, n)
    ensures run[n].down.eof <==> run[n].down.cause == ByEof
    ensures run[n].down.cause == ByEof ==> run[n].down.written == run[n].down.read
  {
    var down := run[n].down;
    ReachableInv(run, steps, n);
    NothingInFlight(down.fifo);
    LostExactlyByFailingRead(run, steps, n);
    assert down.read == down.written + down.lost;
  }

  // A socket shut after TcpEof stays complete: from then on the source has read to its end, and all of it is written.
  lemma HalfCloseIsFinal(run: seq<System>, steps: seq<Step>, n: nat)
    requires Run(run, steps) && n < |run|
    ensures run[n].up.shut && run[n].up.cause == ByEof ==> run[n].up.eof && run[n].up.written == run[n].up.read
    ensures run[n].down.shut && run[n].down.cause == ByEof ==>
              run[n].down.eof && run[n].down.written == run[n].down.read
  {
    ReachableInv(run, steps, n);
    if run[n].up.cause == ByEof {
      NothingInFlight(run[n].up.fifo);
    }
    if run[n].down.cause == ByEof {
      NothingInFlight(run[n].down.fifo);
    }
  }

  // What a sink wrote or still buffers is the beginning of what its source read, whatever was lost on the way.
  lemma WrittenIsPrefixOfRead(run: seq<System>, steps: seq<Step>, n: nat)
    requires Run(run, steps) && n < |run|
    ensures run[n].up.written <= run[n].up.read && run[n].down.written <= run[n].down.read
  {
    ReachableInv(run, steps, n);
    WrittenFirst(run[n].up);
    WrittenFirst(run[n].down);
  }

  lemma WrittenFirst(l: Link)
    requires PrefixLink(l)
    ensures l.written <= l.read
  {
  }

  // ---------------------------------------------------------------- a broken target

  // The two directions are not alike: when the target's connection breaks, here with bytes taken by the read that then
  // failed, the local peer sees an orderly end of stream although the target never ended and those bytes never arrive.
  lemma BrokenTargetLooksLikeEof()
    ensures var run := BrokenTargetRun(); var steps := BrokenTargetSteps();
            && Run(run, steps)
            && run[10].down.shut && run[10].sessionUp && !run[10].down.eof && run[10].down.cause == ByClose
            && run[10].down.read == [1] && run[10].down.written == []
  {
    OpeningRuns();
    AnsweringRuns();
    BreakingRuns();
    LeavingRuns();
    NoticingRuns();
    ShuttingRuns();
  }

  lemma OpeningRuns()
    ensures var run := BrokenTargetRun(); var steps := BrokenTargetSteps();
            Stepped(run, steps, 0) && Stepped(run, steps, 1)
  {
  }

  lemma AnsweringRuns()
    ensures var run := BrokenTargetRun(); var steps := BrokenTargetSteps();
            Stepped(run, steps, 2) && Stepped(run, steps, 3)
  {
  }

  lemma BreakingRuns()
    ensures var run := BrokenTargetRun(); var steps := BrokenTargetSteps();
            Stepped(run, steps, 4) && Stepped(run, steps, 5)
  {
  }

  lemma LeavingRuns()
    ensures var run := BrokenTargetRun(); var steps := BrokenTargetSteps();
            Stepped(run, steps, 6)
  {
  }

  lemma NoticingRuns()
    ensures var run := BrokenTargetRun(); var steps := BrokenTargetSteps();
            Stepped(run, steps, 7) && Stepped(run, steps, 8)
  {
  }

  lemma ShuttingRuns()
    ensures var run := BrokenTargetRun(); var steps := BrokenTargetSteps();
            Stepped(run, steps, 9)
  {
  }

  function BrokenTargetSteps(): seq<Step> {
    [AccessOpens, GatewayDispatch, GatewayConnects, AccessDispatch, GatewayStops([1]), GatewayReports, GatewayLeaves,
     AccessDispatch, AccessDispatch, AccessShuts]
  }

  function BrokenTargetRun(): seq<System> {
    var s1 := Start().(access := Opening, down := NewLink().(cause := Present), up := NewLink().(fifo := [Open]));
    var s2 := s1.(gateway := Opening, up := NewLink());
    var s3 := s2.(gateway := Relaying, up := NewLink().(cause := Present), down := s2.down.(fifo := [OpenOk]));
    var s4 := s3.(access := Relaying, down := s2.down);
    var s5 := s4.(gateway := Stopping, down := s4.down.(read := [1], lost := [1], ended := true));
    var s6 := s5.(down := s5.down.(fifo := [Error]));
    var s7 := s6.(gateway := Ended, up := s6.up.(cause := ByLoss), down := s5.down.(fifo := [Error, Close]));
    var s8 := s7.(down := s5.down.(fifo := [Close]));
    var s9 := s8.(down := s5.down.(cause := ByClose));
    [Start(), s1, s2, s3, s4, s5, s6, s7, s8, s9, s9.(down := s9.down.(shut := true))]
  }
}
