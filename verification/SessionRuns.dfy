// Whole runs of the session authority: any interleaving of registrations, reloads, lease drops and the two halves of
// `authorize_target`, with name lookups answered arbitrarily (crates/ws-net-gateway/src/app.rs).
module SessionRuns {
  import opened Basics
  import opened AccessRules
  import opened GatewayConfig
  import opened SessionAuthority

  // An address handed to a session; a relay to it may run for as long as the session does.
  datatype Grant = Grant(session: string, address: SocketAddr)

  // `names` remembers, for every session id ever issued, the user name it was told; `authorizing` holds the sessions
  // that passed the first half of `authorize_target`, with the port they asked for, and wait for the name lookup.
  datatype System = System(state: State, names: map<string, string>, authorizing: multiset<(string, Port)>,
                           grants: set<Grant>)

  datatype Event =
    | Register(gatewayToken: string, userToken: Option<string>, instance: string, legacy: bool, sid: string)
    | Reload(config: Config, next: map<string, Credential>, winners: map<string, string>)
    | Drop(sid: string)
    | Begin(sid: string, port: Port)
    | Finish(sid: string, port: Port, resolved: Option<seq<SocketAddr>>)

  function RegisterResult(h: Hash, s: State, e: Event): Result<string, GatewayError>
    requires e.Register?
  {
    Admit(h, s, e.gatewayToken, e.userToken, e.instance, e.legacy)
  }

  // Session ids are 32 random bytes and taken to be fresh. A lease lives while one of its operations is under way.
  ghost predicate Enabled(h: Hash, y: System, e: Event) {
    match e
    case Register(_, _, _, _, sid) => sid !in y.names
    case Reload(config, next, winners) =>
      && Loadable(h, config) && config.gateway == y.state.config.gateway
      && IsCredentialTable(h, config, next) && IsWinners(y.state, config, next, winners)
    case Drop(sid) => sid in y.state.sessions && forall k :: k in y.authorizing ==> k.0 != sid
    case Begin(sid, _) => sid in y.state.sessions
    case Finish(sid, port, resolved) =>
      && sid in y.state.sessions && (sid, port) in y.authorizing
      && (resolved.Some? ==> OnPort(resolved.value, port))
  }

  function Apply(h: Hash, y: System, e: Event): System {
    match e
    case Register(_, _, instance, _, sid) =>
      var r := RegisterResult(h, y.state, e);
      if r.Err? then y
      else
        y.(state := AfterRegister(y.state, r.value, instance, sid),
           names := y.names[sid := y.state.credentials[r.value].name])
    case Reload(config, next, winners) => y.(state := AfterReload(y.state, config, next, winners))
    case Drop(sid) => y.(state := AfterDrop(y.state, sid))
    case Begin(sid, port) =>
      if sid in y.state.sessions && AuthorizeStart(y.state, y.state.sessions[sid], port).Ok?
      then y.(authorizing := y.authorizing + multiset{(sid, port)}) else y
    case Finish(sid, port, resolved) =>
      var z := y.(authorizing := y.authorizing - multiset{(sid, port)});
      if sid !in y.state.sessions || resolved.None? then z
      else
        var r := AuthorizeFinish(y.state, y.state.sessions[sid], resolved.value);
        if r.Err? then z else z.(grants := z.grants + set a | a in r.value :: Grant(sid, a))
  }

  ghost predicate Starts(h: Hash, y: System) {
    && Loadable(h, y.state.config) && IsCredentialTable(h, y.state.config, y.state.credentials)
    && y == System(Initial(y.state.config, y.state.credentials), map[], multiset{}, {})
  }

  ghost predicate Run(h: Hash, run: seq<System>, events: seq<Event>) {
    && |run| == |events| + 1 && Starts(h, run[0])
    && forall i :: 0 <= i < |events| ==> Stepped(h, run, events, i)
  }

  ghost predicate Stepped(h: Hash, run: seq<System>, events: seq<Event>, i: nat)
    requires |run| == |events| + 1 && i < |events|
  {
    Enabled(h, run[i], events[i]) && run[i + 1] == Apply(h, run[i], events[i])
  }

  // ---------------------------------------------------------------- the invariant of runs

  ghost predicate IsLive(s: State, sid: string) {
    sid in s.sessions && s.sessions[sid].Live()
  }

  // The rules in force today allow the address.
  ghost predicate StillAllowed(s: State, g: Grant) {
    && IsLive(s, g.session) && s.sessions[g.session].credential in s.credentials
    && ListAllows(s.credentials[s.sessions[g.session].credential].rules, g.address)
  }

  ghost predicate NamedAsToday(s: State, names: map<string, string>, sid: string) {
    && IsLive(s, sid) && sid in names && s.sessions[sid].credential in s.credentials
    && s.credentials[s.sessions[sid].credential].name == names[sid]
  }

  ghost predicate SystemInv(h: Hash, y: System) {
    && Inv(y.state) && TableInForce(h, y.state)
    && y.state.sessions.Keys <= y.names.Keys
    && (forall k :: k in y.authorizing ==> k.0 in y.state.sessions)
    && (forall g :: g in y.grants ==> g.session in y.names)
    && (forall g :: g in y.grants && IsLive(y.state, g.session) ==> StillAllowed(y.state, g))
    && (forall sid :: IsLive(y.state, sid) ==> NamedAsToday(y.state, y.names, sid))
  }

  // Whoever is live after a registration is the newcomer or was live before, unchanged.
  lemma RegisterSparesLive(s: State, id: string, instance: string, sid: string)
    requires id in s.credentials
    ensures var t := AfterRegister(s, id, instance, sid);
            forall x :: IsLive(t, x) && x != sid ==> IsLive(s, x) && t.sessions[x] == s.sessions[x]
  {
  }

  lemma RegisterKeepsSystemInv(h: Hash, y: System, e: Event)
    requires SystemInv(h, y) && e.Register? && Enabled(h, y, e)
    ensures SystemInv(h, Apply(h, y, e))
  {
    var z := Apply(h, y, e);
    if RegisterResult(h, y.state, e).Ok? {
      var id := RegisterResult(h, y.state, e).value;
      assert z.state.credentials == y.state.credentials && z.grants == y.grants;
      RegisterSparesLive(y.state, id, e.instance, e.sid);
      RegisterKeepsInv(h, y.state, e.gatewayToken, e.userToken, e.instance, e.legacy, e.sid);
      forall g | g in z.grants && IsLive(z.state, g.session) ensures StillAllowed(z.state, g) {
        assert StillAllowed(y.state, g);
      }
      forall sid | IsLive(z.state, sid) ensures NamedAsToday(z.state, z.names, sid) {
        assert sid != e.sid ==> NamedAsToday(y.state, y.names, sid);
      }
    }
  }

  lemma ReloadKeepsSystemInv(h: Hash, y: System, e: Event)
    requires SystemInv(h, y) && e.Reload? && Enabled(h, y, e)
    ensures SystemInv(h, Apply(h, y, e))
  {
    var z := Apply(h, y, e);
    ReloadKeepsInv(y.state, e.config, e.next, e.winners);
    forall sid | IsLive(z.state, sid)
      ensures NamedAsToday(z.state, z.names, sid) && IsLive(y.state, sid)
    {
      ReloadSurvivors(y.state, e.config, e.next, e.winners, sid);
      assert NamedAsToday(y.state, y.names, sid);
    }
    forall g | g in z.grants && IsLive(z.state, g.session) ensures StillAllowed(z.state, g) {
      ReloadSurvivors(y.state, e.config, e.next, e.winners, g.session);
      assert StillAllowed(y.state, g);
      var c := y.state.sessions[g.session].credential;
      CoveringKeepsAccess(e.next[c].rules, y.state.credentials[c].rules, g.address);
    }
  }

  lemma SessionEventKeepsSystemInv(h: Hash, y: System, e: Event)
    requires SystemInv(h, y) && (e.Drop? || e.Begin? || e.Finish?) && Enabled(h, y, e)
    ensures SystemInv(h, Apply(h, y, e))
  {
    var z := Apply(h, y, e);
    if e.Drop? {
      DropKeepsInv(y.state, e.sid);
    }
    forall g | g in z.grants && IsLive(z.state, g.session) ensures StillAllowed(z.state, g) {
      if g in y.grants {
        assert StillAllowed(y.state, g);
      } else {
        AuthorizedAddressesAreAllowed(y.state, y.state.sessions[e.sid], e.resolved.value);
      }
    }
    forall sid | IsLive(z.state, sid) ensures NamedAsToday(z.state, z.names, sid) {
      assert NamedAsToday(y.state, y.names, sid);
    }
  }

  lemma StepKeepsSystemInv(h: Hash, y: System, e: Event)
    requires SystemInv(h, y) && Enabled(h, y, e)
    ensures SystemInv(h, Apply(h, y, e))
  {
    match e
    case Register(_, _, _, _, _) => RegisterKeepsSystemInv(h, y, e);
    case Reload(_, _, _) => ReloadKeepsSystemInv(h, y, e);
    case _ => SessionEventKeepsSystemInv(h, y, e);
  }

  lemma StartInv(h: Hash, y: System)
    requires Starts(h, y)
    ensures SystemInv(h, y)
  {
  }

  lemma {:induction false} ReachableInv(h: Hash, run: seq<System>, events: seq<Event>, n: nat)
    requires Run(h, run, events) && n < |run|
    ensures SystemInv(h, run[n])
  {
    if n == 0 {
      StartInv(h, run[0]);
    } else {
      ReachableInv(h, run, events, n - 1);
      assert Stepped(h, run, events, n - 1);
      StepKeepsSystemInv(h, run[n - 1], events[n - 1]);
    }
  }

  // ---------------------------------------------------------------- theorems about every run

  // A permission never goes stale: whatever was granted to a session, however long ago and whatever reloads ran since
  // (also between the two halves of the call that granted it), today's rules still allow it, or the session has been
  // told to stop.
  lemma GrantsNeverGoStale(h: Hash, run: seq<System>, events: seq<Event>, n: nat, g: Grant)
    requires Run(h, run, events) && n < |run| && g in run[n].grants
    ensures g.session !in run[n].state.sessions || run[n].state.sessions[g.session].signal.Some?
            || StillAllowed(run[n].state, g)
  {
    ReachableInv(h, run, events, n);
    assert IsLive(run[n].state, g.session) ==> StillAllowed(run[n].state, g);
  }

  // A live session's user still has the name the session was told when it registered.
  lemma LiveSessionsKeepTheirName(h: Hash, run: seq<System>, events: seq<Event>, n: nat, sid: string)
    requires Run(h, run, events) && n < |run| && IsLive(run[n].state, sid)
    ensures NamedAsToday(run[n].state, run[n].names, sid)
  {
    ReachableInv(h, run, events, n);
  }

  lemma SingleAccessHolds(h: Hash, run: seq<System>, events: seq<Event>, n: nat, a: string, b: string)
    requires Run(h, run, events) && n < |run| && IsLive(run[n].state, a) && IsLive(run[n].state, b)
    requires run[n].state.sessions[a].credential == run[n].state.sessions[b].credential
    ensures var s := run[n].state; var c := s.sessions[a].credential;
            && c in s.credentials
            && (s.credentials[c].single ==> s.sessions[a].instance == s.sessions[b].instance)
  {
    ReachableInv(h, run, events, n);
    assert LiveWellFormed(run[n].state, run[n].state.sessions[a]);
    if run[n].state.credentials[run[n].state.sessions[a].credential].single {
      SingleAccessIsExclusive(run[n].state, a, b);
    }
  }

  lemma EventRevivesNobody(h: Hash, y: System, e: Event, sid: string)
    requires Enabled(h, y, e) && sid in y.names && !IsLive(y.state, sid)
    ensures sid in Apply(h, y, e).names && !IsLive(Apply(h, y, e).state, sid)
  {
    match e
    case Register(_, _, instance, _, fresh_) =>
      var r := RegisterResult(h, y.state, e);
      if r.Ok? {
        RegisterSparesLive(y.state, r.value, instance, fresh_);
      }
    case _ =>
  }

  // Once told to stop, a session is never live again.
  lemma {:induction false} SignalledForGood(h: Hash, run: seq<System>, events: seq<Event>, m: nat, n: nat, sid: string)
    requires Run(h, run, events) && m <= n < |run|
    requires sid in run[m].names && !IsLive(run[m].state, sid)
    ensures sid in run[n].names && !IsLive(run[n].state, sid)
  {
    if m < n {
      SignalledForGood(h, run, events, m, n - 1, sid);
      assert Stepped(h, run, events, n - 1);
      EventRevivesNobody(h, run[n - 1], events[n - 1], sid);
    }
  }

  // In any reachable state, reloading the configuration in force is enabled only as a step that changes nothing.
  lemma ReloadInPlaceIsNoop(h: Hash, run: seq<System>, events: seq<Event>, n: nat, e: Event)
    requires Run(h, run, events) && n < |run|
    requires e.Reload? && e.config == run[n].state.config && Enabled(h, run[n], e)
    ensures Apply(h, run[n], e) == run[n]
  {
    ReachableInv(h, run, events, n);
    CredentialTableUnique(h, e.config, e.next, run[n].state.credentials);
    ReloadOfCurrentIsNoop(run[n].state, e.winners);
  }

  ghost predicate KeepsToken(e: Event, y: System) {
    e.Reload? ==> !TokenChanged(y.state, e.config)
  }

  lemma {:induction false} HistoryGrows(h: Hash, run: seq<System>, events: seq<Event>, m: nat, n: nat)
    requires Run(h, run, events) && m <= n < |run|
    requires forall i :: m <= i < n ==> KeepsToken(events[i], run[i])
    ensures run[m].state.orders.Keys <= run[n].state.orders.Keys && run[m].state.retired <= run[n].state.retired
  {
    if m < n {
      HistoryGrows(h, run, events, m, n - 1);
      assert Stepped(h, run, events, n - 1);
      assert KeepsToken(events[n - 1], run[n - 1]);
      EventKeepsHistory(h, run[n - 1], events[n - 1]);
    }
  }

  lemma EventKeepsHistory(h: Hash, y: System, e: Event)
    requires KeepsToken(e, y)
    ensures y.state.orders.Keys <= Apply(h, y, e).state.orders.Keys && y.state.retired <= Apply(h, y, e).state.retired
  {
  }

  // Takeover is final. Instance a registered, then another instance b of the same credential registered while the
  // credential was single-access. Then a cannot register again under that credential, whatever is reloaded in between
  // (single-access off, user removed and re-added), as long as the gateway token stays: it is barred, and the very
  // tokens that would let some other instance in get it `Replaced`.
  lemma TakeoverIsFinal(h: Hash, run: seq<System>, events: seq<Event>, i: nat, j: nat, k: nat, id: string,
                         other: string)
    requires Run(h, run, events) && i < j < k < |events|
    requires events[i].Register? && events[j].Register? && events[k].Register?
    requires RegisterResult(h, run[i].state, events[i]) == Ok(id)
    requires RegisterResult(h, run[j].state, events[j]) == Ok(id)
    requires events[i].instance != events[j].instance && run[j].state.credentials[id].single
    requires forall x :: i <= x < k ==> KeepsToken(events[x], run[x])
    requires events[k].instance == events[i].instance
    ensures (id, events[i].instance) in run[k].state.retired
    ensures RegisterResult(h, run[k].state, events[k]) != Ok(id)
    ensures RegisterResult(h, run[k].state, events[k].(instance := other)) == Ok(id) ==>
              RegisterResult(h, run[k].state, events[k]) == Err(Replaced)
  {
    var key := (id, events[i].instance);
    assert Stepped(h, run, events, i) && Stepped(h, run, events, j);
    RegistrationIsOnRecord(h, run[i], events[i], id);
    HistoryGrows(h, run, events, i + 1, j);
    OtherInstanceRetires(h, run[j], events[j], id, events[i].instance);
    HistoryGrows(h, run, events, j + 1, k);
  }

  lemma RegistrationIsOnRecord(h: Hash, y: System, e: Event, id: string)
    requires e.Register? && RegisterResult(h, y.state, e) == Ok(id)
    ensures (id, e.instance) in Apply(h, y, e).state.orders
  {
  }

  lemma OtherInstanceRetires(h: Hash, y: System, e: Event, id: string, instance: string)
    requires e.Register? && RegisterResult(h, y.state, e) == Ok(id) && y.state.credentials[id].single
    requires (id, instance) in y.state.orders && instance != e.instance
    ensures (id, instance) in Apply(h, y, e).state.retired
  {
    assert (id, instance) in Others(y.state.orders, id, e.instance);
  }

  // Nothing short of a gateway-token change frees an instance; a token change frees all of them.
  lemma TokenChangeForgetsHistory(s: State, config: Config, next: map<string, Credential>, winners: map<string, string>)
    requires Inv(s) && TokenChanged(s, config) && IsWinners(s, config, next, winners)
    ensures var t := AfterReload(s, config, next, winners);
            && t.orders == map[] && t.retired == {} && t.nextOrder == s.nextOrder
            && forall sid :: sid in t.sessions ==> !t.sessions[sid].Live()
  {
  }

  lemma EventCounts(h: Hash, y: System, e: Event)
    ensures Apply(h, y, e).state.nextOrder <= y.state.nextOrder + 1
  {
  }

  // The counter behind `orders` never exceeds the length of the run, so a 64-bit counter cannot wrap before 2^64
  // events.
  lemma {:induction false} OrdersCountRegistrations(h: Hash, run: seq<System>, events: seq<Event>, n: nat)
    requires Run(h, run, events) && n < |run|
    ensures run[n].state.nextOrder <= n
    ensures forall k :: k in run[n].state.orders ==> 1 <= run[n].state.orders[k] <= n
  {
    ReachableInv(h, run, events, n);
    if n > 0 {
      OrdersCountRegistrations(h, run, events, n - 1);
      assert Stepped(h, run, events, n - 1);
      EventCounts(h, run[n - 1], events[n - 1]);
    }
    assert OrdersWellFormed(run[n].state);
  }

  // ---------------------------------------------------------------- what the events bring about

  // The second half of an authorisation grants exactly what the rules of the moment allow, and closes that one request.
  lemma FinishGrantsExactly(h: Hash, y: System, sid: string, port: Port, resolved: Option<seq<SocketAddr>>, g: Grant)
    requires Enabled(h, y, Finish(sid, port, resolved))
    ensures var z := Apply(h, y, Finish(sid, port, resolved)); var session := y.state.sessions[sid];
            && z.state == y.state && z.names == y.names
            && z.authorizing == y.authorizing - multiset{(sid, port)}
            && (g in z.grants <==>
                 || g in y.grants
                 || (g.session == sid && resolved.Some? && g.address in resolved.value && session.Live()
                     && session.credential in y.state.credentials
                     && ListAllows(y.state.credentials[session.credential].rules, g.address)))
  {
    if resolved.Some? {
      AuthorizedAddressesAreAllowed(y.state, y.state.sessions[sid], resolved.value);
    }
  }

  // The first half opens a request exactly where the check before the lookup passes.
  lemma BeginAsksExactly(h: Hash, y: System, sid: string, port: Port)
    requires Enabled(h, y, Begin(sid, port))
    ensures var z := Apply(h, y, Begin(sid, port));
            && z == y.(authorizing := z.authorizing)
            && z.authorizing ==
                 if AuthorizeStart(y.state, y.state.sessions[sid], port).Ok? then y.authorizing + multiset{(sid, port)}
                 else y.authorizing
  {
  }

  // An admitted registration is live under its new id, with the name it is told; a refused one changes nothing.
  lemma RegistrationStands(h: Hash, y: System, e: Event)
    requires e.Register? && Enabled(h, y, e) && SystemInv(h, y)
    ensures var z := Apply(h, y, e); var r := RegisterResult(h, y.state, e);
            && (r.Err? ==> z == y)
            && (r.Ok? ==> IsLive(z.state, e.sid) && z.state.sessions[e.sid].credential == r.value
                          && z.state.sessions[e.sid].instance == e.instance
                          && z.names == y.names[e.sid := y.state.credentials[r.value].name])
  {
  }

  // Every loadable configuration with the gateway section in force can be reloaded, and then it is in force.
  lemma EveryReloadRuns(h: Hash, y: System, config: Config, next: map<string, Credential>) returns (e: Event)
    requires Loadable(h, config) && config.gateway == y.state.config.gateway && IsCredentialTable(h, config, next)
    ensures e.Reload? && e.config == config && e.next == next && Enabled(h, y, e)
    ensures Apply(h, y, e).state.config == config && Apply(h, y, e).state.credentials == next
  {
    var winners := ElectionDecides(y.state, config, next);
    e := Reload(config, next, winners);
  }
}
