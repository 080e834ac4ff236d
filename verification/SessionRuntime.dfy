// The gateway's `Runtime` and the operations on it, updated in place (crates/ws-net-gateway/src/app.rs).
module SessionRuntime {
  import opened Basics
  import opened AccessRules
  import opened GatewayConfig
  import opened SessionAuthority

  // A session's watch channel: the table entry and the lease hold the same one.
  class Signal {
    var value: Option<GatewayError>

    constructor ()
      ensures value == None
    {
      value := None;
    }
  }

  datatype SessionInfo = SessionInfo(credential: string, instance: string, order: nat, signal: Signal)

  datatype SessionLease = SessionLease(id: string, userName: Option<string>, credential: string, signal: Signal)

  // `for (credential, previous) in orders.keys()`, in whatever order the map yields them.
  method CollectOthers(orders: map<Key, nat>, id: string, keep: string) returns (previous: set<Key>)
    ensures previous == Others(orders, id, keep)
  {
    previous := {};
    var todo := orders.Keys;
    while todo != {}
      invariant todo <= orders.Keys
      invariant previous == set k | k in orders.Keys - todo && k.0 == id && k.1 != keep
    {
      var k :| k in todo;
      if k.0 == id && k.1 != keep {
        previous := previous + {k};
      }
      todo := todo - {k};
    }
  }

  class Runtime {
    const h: Hash
    var config: Config
    var credentials: map<string, Credential>
    var sessions: map<string, SessionInfo>
    var orders: map<Key, nat>
    var retired: set<Key>
    var nextOrder: nat

    ghost function Signals(): set<Signal>
      reads this
    {
      set sid | sid in sessions :: sessions[sid].signal
    }

    ghost function SessionView(sid: string): Session
      requires sid in sessions
      reads this, Signals()
    {
      assert sessions[sid].signal in Signals();
      var info := sessions[sid];
      Session(info.credential, info.instance, info.order, info.signal.value)
    }

    ghost function View(): State
      reads this, Signals()
    {
      State(config, credentials, map sid | sid in sessions :: SessionView(sid), orders, retired, nextOrder)
    }

    ghost predicate SignalsDistinct()
      reads this
    {
      forall a, b :: a in sessions && b in sessions && a != b ==> sessions[a].signal != sessions[b].signal
    }

    ghost predicate Valid()
      reads this, Signals()
    {
      SignalsDistinct() && Inv(View()) && TableInForce(h, View())
    }

    // A lease held by its session is the session's table entry, channel included.
    ghost predicate Attached(lease: SessionLease)
      reads this
    {
      && lease.id in sessions && sessions[lease.id].signal == lease.signal
      && sessions[lease.id].credential == lease.credential
    }

    constructor (h: Hash, config: Config, credentials: map<string, Credential>)
      requires Loadable(h, config) && IsCredentialTable(h, config, credentials)
      ensures Valid() && this.h == h && View() == Initial(config, credentials)
    {
      this.h := h;
      this.config := config;
      this.credentials := credentials;
      this.sessions := map[];
      this.orders := map[];
      this.retired := {};
      this.nextOrder := 0;
    }

    // `bootstrap_tokens`
    method BootstrapTokens(gatewayId: string, userId: Option<string>)
      returns (r: Result<(string, Option<string>), GatewayError>)
      ensures r == Bootstrap(h, View(), gatewayId, userId)
    {
      if h(config.auth.accessToken) != gatewayId {
        return Err(Unauthorized);
      }
      if !config.auth.enabled {
        return Ok((config.auth.accessToken, None));
      }
      var id := if userId.Some? then userId.value else "";
      if id !in credentials {
        return Err(Unauthorized);
      }
      return Ok((config.auth.accessToken, Some(credentials[id].token)));
    }

    // `for session in sessions.values()` in `register`.
    method Kick(id: string, keep: string)
      requires SignalsDistinct()
      modifies Signals()
      ensures View() == old(View()).(sessions := KickOthers(old(View()).sessions, id, keep))
    {
      var todo := sessions.Keys;
      while todo != {}
        invariant todo <= sessions.Keys
        invariant forall sid :: sid in sessions ==>
          SessionView(sid) == if sid in todo then old(SessionView(sid))
                              else KickOthers(old(View()).sessions, id, keep)[sid]
      {
        var sid :| sid in todo;
        var session := sessions[sid];
        if session.credential == id && session.instance != keep {
          session.signal.value := Some(Replaced);
        }
        todo := todo - {sid};
      }
    }

    method OrderOf(key: Key) returns (order: nat)
      modifies this`orders, this`nextOrder
      ensures order == if key in old(orders) then old(orders)[key] else old(nextOrder) + 1
      ensures orders == old(orders)[key := order]
      ensures nextOrder == if key in old(orders) then old(nextOrder) else old(nextOrder) + 1
      ensures View() == old(View()).(orders := orders, nextOrder := nextOrder)
    {
      if key in orders {
        return orders[key];
      }
      nextOrder := nextOrder + 1;
      order := nextOrder;
      orders := orders[key := order];
    }

    method Insert(sessionId: string, id: string, instance: string, order: nat) returns (signal: Signal)
      requires SignalsDistinct()
      modifies this`sessions
      ensures SignalsDistinct() && fresh(signal)
      ensures sessions == old(sessions)[sessionId := SessionInfo(id, instance, order, signal)]
      ensures View() == old(View()).(sessions := old(View()).sessions[sessionId := Session(id, instance, order, None)])
    {
      signal := new Signal();
      sessions := sessions[sessionId := SessionInfo(id, instance, order, signal)];
      forall sid | sid in sessions
        ensures SessionView(sid) == old(View()).sessions[sessionId := Session(id, instance, order, None)][sid]
      {
        if sid != sessionId {
          assert old(sessions[sid].signal in Signals());
        }
      }
      assert View().sessions == old(View()).sessions[sessionId := Session(id, instance, order, None)];
    }

    method TakeOver(id: string, instance: string)
      requires SignalsDistinct()
      modifies this`retired, Signals()
      ensures View() == old(View()).(retired := old(View()).retired + Others(old(View()).orders, id, instance),
                                     sessions := KickOthers(old(View()).sessions, id, instance))
    {
      var previous := CollectOthers(orders, id, instance);
      retired := retired + previous;
      Kick(id, instance);
    }

    // From the takeover of a single-access credential to the new table entry.
    method Enroll(id: string, instance: string, sessionId: string) returns (signal: Signal)
      requires SignalsDistinct() && id in credentials
      modifies this`sessions, this`orders, this`retired, this`nextOrder, Signals()
      ensures SignalsDistinct() && fresh(signal)
      ensures View() == AfterRegister(old(View()), id, instance, sessionId)
      ensures sessionId in sessions && sessions[sessionId].signal == signal && sessions[sessionId].credential == id
      ensures forall sid :: sid in old(sessions) && sid != sessionId ==>
                sid in sessions && sessions[sid].signal == old(sessions[sid].signal)
    {
      if credentials[id].single {
        TakeOver(id, instance);
      }
      var order := OrderOf((id, instance));
      signal := Insert(sessionId, id, instance, order);
    }

    method Register(gatewayToken: string, userToken: Option<string>, instance: string, legacy: bool, sessionId: string)
      returns (r: Result<SessionLease, GatewayError>)
      requires Valid()
      modifies this, Signals()
      ensures Valid()
      ensures var admitted := Admit(h, old(View()), gatewayToken, userToken, instance, legacy);
              if admitted.Err? then
                r == Err(admitted.error) && View() == old(View())
              else
                && View() == AfterRegister(old(View()), admitted.value, instance, sessionId)
                && r.Ok? && r.value.id == sessionId && Attached(r.value)
                && r.value.userName == if config.auth.enabled then Some(credentials[admitted.value].name) else None
      ensures forall sid :: sid in old(sessions) && sid != sessionId ==>
                sid in sessions && sessions[sid].signal == old(sessions[sid].signal)
    {
      if gatewayToken != config.auth.accessToken || (legacy && config.auth.enabled) {
        return Err(Unauthorized);
      }
      var token := gatewayToken;
      if config.auth.enabled {
        if userToken.None? {
          return Err(Unauthorized);
        }
        token := userToken.value;
      }
      var id := h(token);
      if id !in credentials || credentials[id].token != token {
        return Err(Unauthorized);
      }
      var credential := credentials[id];
      if !ValidId(instance) {
        return Err(Unauthorized);
      }
      var key := (id, instance);
      if key in retired {
        return Err(Replaced);
      }
      RegisterKeepsInv(h, View(), gatewayToken, userToken, instance, legacy, sessionId);
      var signal := Enroll(id, instance, sessionId);
      r := Ok(SessionLease(sessionId, if config.auth.enabled then Some(credential.name) else None, id, signal));
    }

    // The election loop of `reload`; the map yields the sessions in any order.
    method Elect(newConfig: Config, next: map<string, Credential>, ghost s: State)
      returns (winners: map<string, string>)
      requires SignalsDistinct() && s == View()
      ensures IsWinners(s, newConfig, next, winners)
    {
      var best: map<string, (nat, string)> := map[];
      ghost var tops: map<string, string> := map[];
      var todo := sessions.Keys;
      while todo != {}
        invariant todo <= sessions.Keys
        invariant Tally(s, newConfig, next, s.sessions.Keys - todo, best, tops)
      {
        var sid :| sid in todo;
        var session := sessions[sid];
        assert s.sessions[sid] == SessionView(sid);
        var c := session.credential;
        TallyStep(s, newConfig, next, s.sessions.Keys - todo, best, tops, sid);
        if config.auth.accessToken == newConfig.auth.accessToken && session.signal.value.None?
           && c in next && next[c].single
        {
          if c !in best || session.order > best[c].0 {
            best := best[c := (session.order, session.instance)];
            tops := tops[c := sid];
          }
        }
        assert s.sessions.Keys - todo + {sid} == s.sessions.Keys - (todo - {sid});
        todo := todo - {sid};
      }
      assert s.sessions.Keys - todo == s.sessions.Keys;
      TallyDecides(s, newConfig, next, best, tops);
      winners := Instances(best);
    }

    method Judge(newConfig: Config, next: map<string, Credential>, winners: map<string, string>, session: SessionInfo,
                 ghost s: State, ghost judged: Session)
      returns (error: Option<GatewayError>)
      requires s.config == config && s.credentials == credentials
      requires judged.credential == session.credential && judged.instance == session.instance
      ensures error == Verdict(s, newConfig, next, winners, judged)
    {
      var c := session.credential;
      if config.auth.accessToken != newConfig.auth.accessToken {
        return Some(Changed);
      }
      if c !in next {
        return Some(Changed);
      }
      if c in credentials && (credentials[c].name != next[c].name || !ListCovers(next[c].rules, credentials[c].rules)) {
        return Some(Changed);
      }
      if c in winners && winners[c] != session.instance {
        return Some(Replaced);
      }
      return None;
    }

    // The last loop of `reload`: each session's verdict, sent only where nothing was sent before.
    method SignalVerdicts(newConfig: Config, next: map<string, Credential>, winners: map<string, string>)
      requires SignalsDistinct()
      modifies Signals()
      ensures View() == old(View()).(sessions := SignalledSessions(old(View()), newConfig, next, winners))
    {
      var todo := sessions.Keys;
      while todo != {}
        invariant todo <= sessions.Keys
        invariant forall sid :: sid in sessions ==>
          SessionView(sid) == if sid in todo then old(SessionView(sid))
                              else Signalled(old(View()), newConfig, next, winners, old(SessionView(sid)))
      {
        var sid :| sid in todo;
        var session := sessions[sid];
        var error := Judge(newConfig, next, winners, session, old(View()), old(SessionView(sid)));
        if session.signal.value.None? {
          if error.Some? {
            session.signal.value := error;
          }
        }
        todo := todo - {sid};
      }
      assert View().sessions == SignalledSessions(old(View()), newConfig, next, winners);
    }

    method Reload(newConfig: Config) returns (r: Result<(), GatewayError>)
      requires Valid()
      modifies this, Signals()
      ensures Valid()
      ensures sessions == old(sessions)
      ensures r.Ok? <==> Loadable(h, newConfig) && newConfig.gateway == old(config.gateway)
      ensures r.Err? ==> View() == old(View())
      ensures r.Ok? ==> IsCredentialTable(h, newConfig, credentials)
      ensures r.Ok? ==> exists winners :: IsWinners(old(View()), newConfig, credentials, winners)
                                          && View() == AfterReload(old(View()), newConfig, credentials, winners)
    {
      var loaded := Credentials(h, newConfig);
      if loaded.None? {
        return Err(InvalidConfig);
      }
      r := ReloadLocked(newConfig, loaded.value);
    }

    // `reload` from the point where it holds the lock.
    method ReloadLocked(newConfig: Config, next: map<string, Credential>) returns (r: Result<(), GatewayError>)
      requires Valid() && Loadable(h, newConfig) && IsCredentialTable(h, newConfig, next)
      modifies this, Signals()
      ensures Valid()
      ensures sessions == old(sessions)
      ensures r.Ok? <==> newConfig.gateway == old(config.gateway)
      ensures r.Err? ==> View() == old(View())
      ensures r.Ok? ==> credentials == next
      ensures r.Ok? ==> exists winners :: IsWinners(old(View()), newConfig, next, winners)
                                          && View() == AfterReload(old(View()), newConfig, next, winners)
    {
      if config.gateway != newConfig.gateway {
        return Err(ListenChanged);
      }
      ghost var winners := ReplaceElected(newConfig, next);
      return Ok(());
    }

    method ReplaceElected(newConfig: Config, next: map<string, Credential>) returns (ghost winners: map<string, string>)
      requires Valid() && Loadable(h, newConfig) && IsCredentialTable(h, newConfig, next)
      modifies this`orders, this`retired, this`credentials, this`config, Signals()
      ensures Valid() && credentials == next
      ensures IsWinners(old(View()), newConfig, next, winners)
      ensures View() == AfterReload(old(View()), newConfig, next, winners)
    {
      var elected := Elect(newConfig, next, View());
      Replace(newConfig, next, elected);
      winners := elected;
    }

    method Replace(newConfig: Config, next: map<string, Credential>, winners: map<string, string>)
      requires Valid() && Loadable(h, newConfig) && IsCredentialTable(h, newConfig, next)
      requires IsWinners(View(), newConfig, next, winners)
      modifies this`orders, this`retired, this`credentials, this`config, Signals()
      ensures Valid()
      ensures View() == AfterReload(old(View()), newConfig, next, winners)
    {
      ReloadKeepsInv(View(), newConfig, next, winners);
      SignalVerdicts(newConfig, next, winners);
      Adopt(newConfig, next, winners);
    }

    method Adopt(newConfig: Config, next: map<string, Credential>, winners: map<string, string>)
      modifies this`orders, this`retired, this`credentials, this`config
      ensures var was := old(View()); var changed := TokenChanged(was, newConfig);
              var kept := if changed then map[] else was.orders;
              View() == State(newConfig, next, was.sessions, kept,
                              (if changed then {} else was.retired) + Losers(kept, winners), was.nextOrder)
    {
      if config.auth.accessToken != newConfig.auth.accessToken {
        orders := map[];
        retired := {};
      }
      RetireLosers(winners);
      credentials := next;
      config := newConfig;
    }

    // `for (id, (_, instance)) in &winners`
    method RetireLosers(winners: map<string, string>)
      modifies this`retired
      ensures retired == old(retired) + Losers(orders, winners)
    {
      var todo := winners.Keys;
      while todo != {}
        invariant todo <= winners.Keys
        invariant retired == old(retired) + set k | k in orders && k.0 in winners.Keys - todo && k.1 != winners[k.0]
      {
        var id :| id in todo;
        var previous := CollectOthers(orders, id, winners[id]);
        retired := retired + previous;
        todo := todo - {id};
      }
    }

    // Dropping the last handle of a lease.
    method DropLease(lease: SessionLease)
      requires Valid()
      modifies this`sessions
      ensures Valid()
      ensures View() == AfterDrop(old(View()), lease.id)
    {
      DropKeepsInv(View(), lease.id);
      sessions := sessions - {lease.id};
      assert View().sessions == AfterDrop(old(View()), lease.id).sessions;
    }

    // The part of `authorize_target` before the name lookup.
    method BeginAuthorize(lease: SessionLease, port: Port) returns (r: Result<(), GatewayError>)
      requires Attached(lease)
      ensures r == AuthorizeStart(View(), View().sessions[lease.id], port)
    {
      if lease.signal.value.Some? {
        return Err(lease.signal.value.value);
      }
      if port == 0 {
        return Err(InvalidPort);
      }
      if lease.credential !in credentials {
        return Err(Unauthorized);
      }
      if credentials[lease.credential].rules == [] {
        return Err(Forbidden);
      }
      return Ok(());
    }

    // The part of `authorize_target` after the name lookup.
    method FinishAuthorize(lease: SessionLease, resolved: seq<SocketAddr>)
      returns (r: Result<seq<SocketAddr>, GatewayError>)
      requires Attached(lease)
      ensures r == AuthorizeFinish(View(), View().sessions[lease.id], resolved)
    {
      if lease.signal.value.Some? {
        return Err(lease.signal.value.value);
      }
      if lease.credential !in credentials {
        return Err(Unauthorized);
      }
      var rules := credentials[lease.credential].rules;
      var addresses: seq<SocketAddr> := [];
      for i := 0 to |resolved|
        invariant addresses == Allowed(rules, resolved[..i])
      {
        if ListAllows(rules, resolved[i]) {
          addresses := addresses + [resolved[i]];
        }
        assert resolved[..i + 1][..i] == resolved[..i];
      }
      assert resolved[..|resolved|] == resolved;
      if addresses == [] {
        return Err(Forbidden);
      }
      return Ok(addresses);
    }
  }
}
