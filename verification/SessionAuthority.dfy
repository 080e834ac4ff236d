// What the gateway's session authority computes, as functions on values (crates/ws-net-gateway/src/app.rs).
// The class in SessionRuntime is proved to compute these; this file proves what they promise.
module SessionAuthority {
  import opened Basics
  import opened AccessRules
  import opened GatewayConfig

  datatype GatewayError =
    | Unauthorized
    | Replaced
    | Changed
    | Forbidden
    | InvalidPort
    | ResolveFailed
    | InvalidConfig
    | ListenChanged

  datatype Session = Session(credential: string, instance: string, order: nat, signal: Option<GatewayError>) {
    predicate Live() {
      signal.None?
    }
  }

  // (credential id, instance id)
  type Key = (string, string)

  datatype State = State(
    config: Config,
    credentials: map<string, Credential>,
    sessions: map<string, Session>,
    orders: map<Key, nat>,
    retired: set<Key>,
    nextOrder: nat)

  predicate ValidId(value: string) {
    |value| == 64 && forall i :: 0 <= i < 64 ==>
      ('0' <= value[i] <= '9' || 'a' <= value[i] <= 'f' || 'A' <= value[i] <= 'F')
  }

  // ---------------------------------------------------------------- registration

  // The checks of `register`, in order; the result is the credential id the caller is admitted under.
  function Admit(h: Hash, s: State, gatewayToken: string, userToken: Option<string>, instance: string, legacy: bool)
    : Result<string, GatewayError>
  {
    if gatewayToken != s.config.auth.accessToken || (legacy && s.config.auth.enabled) then Err(Unauthorized)
    else if s.config.auth.enabled && userToken.None? then Err(Unauthorized)
    else
      var token := if s.config.auth.enabled then userToken.value else gatewayToken;
      var id := h(token);
      if id !in s.credentials || s.credentials[id].token != token then Err(Unauthorized)
      else if !ValidId(instance) then Err(Unauthorized)
      else if (id, instance) in s.retired then Err(Replaced)
      else Ok(id)
  }

  // The instances of credential `id` other than `keep` that ever registered.
  function Others(orders: map<Key, nat>, id: string, keep: string): set<Key> {
    set k | k in orders && k.0 == id && k.1 != keep
  }

  function KickOthers(sessions: map<string, Session>, id: string, keep: string): map<string, Session> {
    map sid | sid in sessions ::
      if sessions[sid].credential == id && sessions[sid].instance != keep
      then sessions[sid].(signal := Some(Replaced)) else sessions[sid]
  }

  function AfterRegister(s: State, id: string, instance: string, sid: string): State
    requires id in s.credentials
  {
    var single := s.credentials[id].single;
    var known := (id, instance) in s.orders;
    var order := if known then s.orders[(id, instance)] else s.nextOrder + 1;
    s.(retired := if single then s.retired + Others(s.orders, id, instance) else s.retired,
       sessions := (if single then KickOthers(s.sessions, id, instance) else s.sessions)
                   [sid := Session(id, instance, order, None)],
       orders := s.orders[(id, instance) := order],
       nextOrder := if known then s.nextOrder else s.nextOrder + 1)
  }

  // ---------------------------------------------------------------- reload

  predicate TokenChanged(s: State, config: Config) {
    s.config.auth.accessToken != config.auth.accessToken
  }

  // The live sessions that take part in the election of their (single-access) credential.
  predicate Contends(s: State, config: Config, next: map<string, Credential>, sid: string) {
    && !TokenChanged(s, config)
    && sid in s.sessions && s.sessions[sid].Live()
    && s.sessions[sid].credential in next && next[s.sessions[sid].credential].single
  }

  // `instance` holds the highest order among the contending sessions of credential `c`.
  ghost predicate Elected(s: State, config: Config, next: map<string, Credential>, c: string, instance: string) {
    exists top :: ElectedBy(s, config, next, c, instance, top)
  }

  ghost predicate ElectedBy(
    s: State, config: Config, next: map<string, Credential>, c: string, instance: string, top: string)
  {
    && Contends(s, config, next, top) && s.sessions[top].credential == c && s.sessions[top].instance == instance
    && forall sid :: Contends(s, config, next, sid) && s.sessions[sid].credential == c ==>
         s.sessions[sid].order <= s.sessions[top].order
  }

  // One elected instance for each credential that has a contending session, and no others.
  ghost predicate IsWinners(s: State, config: Config, next: map<string, Credential>, winners: map<string, string>) {
    && (forall c :: c in winners ==> Elected(s, config, next, c, winners[c]))
    && (forall sid :: Contends(s, config, next, sid) ==> s.sessions[sid].credential in winners)
  }

  // The error `reload` has for one session, whether or not the session is still live.
  function Verdict(
    s: State, config: Config, next: map<string, Credential>, winners: map<string, string>, session: Session)
    : Option<GatewayError>
  {
    var c := session.credential;
    if TokenChanged(s, config) then Some(Changed)
    else if c !in next then Some(Changed)
    else if c in s.credentials
            && (s.credentials[c].name != next[c].name || !ListCovers(next[c].rules, s.credentials[c].rules))
    then Some(Changed)
    else if c in winners && winners[c] != session.instance then Some(Replaced)
    else None
  }

  function Signalled(
    s: State, config: Config, next: map<string, Credential>, winners: map<string, string>, session: Session): Session
  {
    if session.Live() then session.(signal := Verdict(s, config, next, winners, session)) else session
  }

  function SignalledSessions(s: State, config: Config, next: map<string, Credential>, winners: map<string, string>)
    : map<string, Session>
  {
    map sid | sid in s.sessions :: Signalled(s, config, next, winners, s.sessions[sid])
  }

  function Losers(orders: map<Key, nat>, winners: map<string, string>): set<Key> {
    set k | k in orders && k.0 in winners && k.1 != winners[k.0]
  }

  function AfterReload(s: State, config: Config, next: map<string, Credential>, winners: map<string, string>): State {
    var orders := if TokenChanged(s, config) then map[] else s.orders;
    var retired := if TokenChanged(s, config) then {} else s.retired;
    State(
      config,
      next,
      SignalledSessions(s, config, next, winners),
      orders,
      retired + Losers(orders, winners),
      s.nextOrder)
  }

  // ---------------------------------------------------------------- counting an election

  // The count after the sessions in `done`: each credential's best so far, and a session that achieved it.
  ghost predicate Tally(s: State, config: Config, next: map<string, Credential>, done: set<string>,
                        best: map<string, (nat, string)>, tops: map<string, string>)
  {
    && tops.Keys == best.Keys
    && (forall c :: c in best ==>
         && tops[c] in done && Contends(s, config, next, tops[c]) && s.sessions[tops[c]].credential == c
         && best[c] == (s.sessions[tops[c]].order, s.sessions[tops[c]].instance))
    && (forall sid :: sid in done && Contends(s, config, next, sid) ==>
         s.sessions[sid].credential in best && s.sessions[sid].order <= best[s.sessions[sid].credential].0)
  }

  lemma TallyStep(s: State, config: Config, next: map<string, Credential>, done: set<string>,
                  best: map<string, (nat, string)>, tops: map<string, string>, sid: string)
    requires Tally(s, config, next, done, best, tops) && sid in s.sessions
    ensures var session := s.sessions[sid]; var c := session.credential;
            if Contends(s, config, next, sid) && (c !in best || session.order > best[c].0)
            then Tally(s, config, next, done + {sid}, best[c := (session.order, session.instance)], tops[c := sid])
            else Tally(s, config, next, done + {sid}, best, tops)
  {
  }

  function Instances(best: map<string, (nat, string)>): map<string, string> {
    map c | c in best :: best[c].1
  }

  lemma TallyDecides(s: State, config: Config, next: map<string, Credential>,
                     best: map<string, (nat, string)>, tops: map<string, string>)
    requires Tally(s, config, next, s.sessions.Keys, best, tops)
    ensures IsWinners(s, config, next, Instances(best))
  {
    forall c | c in best ensures Elected(s, config, next, c, best[c].1) {
      assert ElectedBy(s, config, next, c, best[c].1, tops[c]);
    }
  }

  // Every reload has winners to work with, whichever way its sessions are visited.
  lemma ElectionDecides(s: State, config: Config, next: map<string, Credential>) returns (winners: map<string, string>)
    ensures IsWinners(s, config, next, winners)
  {
    var best: map<string, (nat, string)>, tops: map<string, string> := map[], map[];
    var todo := s.sessions.Keys;
    while todo != {}
      invariant todo <= s.sessions.Keys
      invariant Tally(s, config, next, s.sessions.Keys - todo, best, tops)
    {
      var sid :| sid in todo;
      var session := s.sessions[sid];
      var c := session.credential;
      TallyStep(s, config, next, s.sessions.Keys - todo, best, tops, sid);
      if Contends(s, config, next, sid) && (c !in best || session.order > best[c].0) {
        best, tops := best[c := (session.order, session.instance)], tops[c := sid];
      }
      assert s.sessions.Keys - todo + {sid} == s.sessions.Keys - (todo - {sid});
      todo := todo - {sid};
    }
    assert s.sessions.Keys - todo == s.sessions.Keys;
    TallyDecides(s, config, next, best, tops);
    winners := Instances(best);
  }

  // ---------------------------------------------------------------- authorisation

  function AuthorizeStart(s: State, session: Session, port: Port): Result<(), GatewayError> {
    if session.signal.Some? then Err(session.signal.value)
    else if port == 0 then Err(InvalidPort)
    else if session.credential !in s.credentials then Err(Unauthorized)
    else if s.credentials[session.credential].rules == [] then Err(Forbidden)
    else Ok(())
  }

  function Allowed(rules: seq<AccessRule>, addresses: seq<SocketAddr>): (r: seq<SocketAddr>)
    ensures forall a :: a in r <==> a in addresses && ListAllows(rules, a)
  {
    if addresses == [] then []
    else
      var rest := Allowed(rules, addresses[..|addresses| - 1]);
      var last := addresses[|addresses| - 1];
      if ListAllows(rules, last) then rest + [last] else rest
  }

  // The second lock of `authorize_target`, after the name lookup gave `resolved`.
  function AuthorizeFinish(s: State, session: Session, resolved: seq<SocketAddr>)
    : Result<seq<SocketAddr>, GatewayError>
  {
    if session.signal.Some? then Err(session.signal.value)
    else if session.credential !in s.credentials then Err(Unauthorized)
    else
      var addresses := Allowed(s.credentials[session.credential].rules, resolved);
      if addresses == [] then Err(Forbidden) else Ok(addresses)
  }

  // `bootstrap_tokens`: the secrets of the handshake, looked up by their public ids.
  function Bootstrap(h: Hash, s: State, gatewayId: string, userId: Option<string>)
    : Result<(string, Option<string>), GatewayError>
  {
    if h(s.config.auth.accessToken) != gatewayId then Err(Unauthorized)
    else if !s.config.auth.enabled then Ok((s.config.auth.accessToken, None))
    else
      var id := if userId.Some? then userId.value else "";
      if id !in s.credentials then Err(Unauthorized)
      else Ok((s.config.auth.accessToken, Some(s.credentials[id].token)))
  }

  // ---------------------------------------------------------------- the invariant

  ghost predicate OrdersWellFormed(s: State) {
    && (forall k :: k in s.orders ==> 1 <= s.orders[k] <= s.nextOrder)
    && (forall k, l :: k in s.orders && l in s.orders && s.orders[k] == s.orders[l] ==> k == l)
    && s.retired <= s.orders.Keys
  }

  ghost predicate LiveWellFormed(s: State, session: Session) {
    && session.credential in s.credentials
    && (session.credential, session.instance) in s.orders
    && s.orders[(session.credential, session.instance)] == session.order
    && (session.credential, session.instance) !in s.retired
    && (s.credentials[session.credential].single ==>
         Others(s.orders, session.credential, session.instance) <= s.retired)
  }

  ghost predicate Inv(s: State) {
    && OrdersWellFormed(s)
    && forall sid :: sid in s.sessions && s.sessions[sid].Live() ==> LiveWellFormed(s, s.sessions[sid])
  }

  // The credentials in force are those of the configuration in force.
  ghost predicate TableInForce(h: Hash, s: State) {
    Loadable(h, s.config) && IsCredentialTable(h, s.config, s.credentials)
  }

  function Initial(config: Config, credentials: map<string, Credential>): State {
    State(config, credentials, map[], map[], {}, 0)
  }

  // The live sessions of a single-access credential all belong to one instance.
  lemma SingleAccessIsExclusive(s: State, a: string, b: string)
    requires Inv(s) && a in s.sessions && b in s.sessions && s.sessions[a].Live() && s.sessions[b].Live()
    requires s.sessions[a].credential == s.sessions[b].credential && s.credentials[s.sessions[a].credential].single
    ensures s.sessions[a].instance == s.sessions[b].instance
  {
  }

  // A registration succeeds exactly for a holder of the gateway token who also holds a current user's token (when the
  // user system is on), speaks a protocol that can carry it, names a proper instance, and was not superseded.
  lemma RegistersExactly(h: Hash, s: State, gatewayToken: string, userToken: Option<string>, instance: string,
                         legacy: bool, id: string)
    requires TableInForce(h, s)
    ensures Admit(h, s, gatewayToken, userToken, instance, legacy) == Ok(id) <==>
              && gatewayToken == s.config.auth.accessToken && ValidId(instance) && (id, instance) !in s.retired
              && (if s.config.auth.enabled
                  then !legacy && userToken.Some? && HasUserToken(s.config, userToken.value) && id == h(userToken.value)
                  else id == h(gatewayToken))
  {
  }

  ghost predicate HasUserToken(config: Config, token: string) {
    exists i :: 0 <= i < |config.users| && config.users[i].token == token
  }

  // Whoever holds the right tokens with a proper instance and is refused was superseded and is told so; anyone else is
  // told nothing but that he is not authorised.
  lemma RefusedRegistrationsAreTold(h: Hash, s: State, gatewayToken: string, userToken: Option<string>,
                                    instance: string, legacy: bool)
    requires TableInForce(h, s)
    ensures var r := Admit(h, s, gatewayToken, userToken, instance, legacy);
            && (r.Err? ==> r.error == Unauthorized || r.error == Replaced)
            && (r == Err(Replaced) <==>
                 && gatewayToken == s.config.auth.accessToken && ValidId(instance)
                 && (if s.config.auth.enabled
                     then !legacy && userToken.Some? && HasUserToken(s.config, userToken.value)
                          && (h(userToken.value), instance) in s.retired
                     else (h(gatewayToken), instance) in s.retired))
  {
    if s.config.auth.enabled && userToken.Some? {
      UserTokensAreFiled(h, s, userToken.value);
    } else if !s.config.auth.enabled {
      assert s.credentials[h(s.config.auth.accessToken)].token == s.config.auth.accessToken;
    }
  }

  // The entry under a token's hash holds that token exactly when it is a user's.
  lemma UserTokensAreFiled(h: Hash, s: State, token: string)
    requires TableInForce(h, s) && s.config.auth.enabled
    ensures h(token) in s.credentials && s.credentials[h(token)].token == token <==> HasUserToken(s.config, token)
  {
    if HasUserToken(s.config, token) {
      var i :| 0 <= i < |s.config.users| && s.config.users[i].token == token;
      assert UserId(h, s.config.users, i) == h(token);
    }
    if h(token) in s.credentials && s.credentials[h(token)].token == token {
      var i :| 0 <= i < |s.config.users| && UserId(h, s.config.users, i) == h(token);
      assert s.config.users[i].token == token;
    }
  }

  // ---------------------------------------------------------------- instance ids

  function Nibble(n: nat): (c: char)
    requires n < 16
    ensures '0' <= c <= '9' || 'a' <= c <= 'f'
  {
    "0123456789abcdef"[n]
  }

  // `hex` of the random bytes: two digits for each, the high one first.
  function Hex(bytes: Bytes): (r: string)
    ensures |r| == 2 * |bytes|
  {
    seq(2 * |bytes|, k requires 0 <= k < 2 * |bytes| =>
      Nibble(if k % 2 == 0 then bytes[k / 2] / 16 else bytes[k / 2] % 16))
  }

  function NibbleOf(c: char): (n: nat)
    requires '0' <= c <= '9' || 'a' <= c <= 'f' || 'A' <= c <= 'F'
    ensures n < 16
  {
    if c <= '9' then c as int - '0' as int
    else if c <= 'F' then c as int - 'A' as int + 10
    else c as int - 'a' as int + 10
  }

  // The same hexadecimal digit, in either case.
  predicate SameDigit(c: char, d: char) {
    c == d || ('A' <= c <= 'F' && d as int == c as int + 32)
  }

  lemma HalvesOf(high: nat, low: nat)
    requires high < 16 && low < 16
    ensures (16 * high + low) / 16 == high && (16 * high + low) % 16 == low
  {
  }

  // The bytes a proper id stands for.
  function BytesOf(value: string): (bytes: Bytes)
    requires ValidId(value)
    ensures |bytes| == 32
  {
    seq(32, i requires 0 <= i < 32 => 16 * NibbleOf(value[2 * i]) + NibbleOf(value[2 * i + 1]))
  }

  lemma ByteSpellsTwo(value: string, i: nat)
    requires ValidId(value) && i < 32
    ensures BytesOf(value)[i] / 16 == NibbleOf(value[2 * i]) && BytesOf(value)[i] % 16 == NibbleOf(value[2 * i + 1])
  {
    HalvesOf(NibbleOf(value[2 * i]), NibbleOf(value[2 * i + 1]));
  }

  lemma BytesSpellTheId(value: string)
    requires ValidId(value)
    ensures SameText(value, Hex(BytesOf(value)))
  {
    forall k | 0 <= k < 64 ensures SameDigit(value[k], Hex(BytesOf(value))[k]) {
      ByteSpellsTwo(value, k / 2);
      DigitOf(value[k]);
      assert k == 2 * (k / 2) + k % 2;
    }
  }

  // The ids `register` lets through are exactly the hexadecimal texts of 32 bytes, in either case; so every id an
  // access client makes for itself is one.
  lemma ValidIdsAreHex(value: string)
    ensures ValidId(value) <==> exists bytes: Bytes :: |bytes| == 32 && SameText(value, Hex(bytes))
  {
    if ValidId(value) {
      BytesSpellTheId(value);
    }
    if bytes: Bytes :| |bytes| == 32 && SameText(value, Hex(bytes)) {
      forall k | 0 <= k < 64 ensures '0' <= value[k] <= '9' || 'a' <= value[k] <= 'f' || 'A' <= value[k] <= 'F' {
        assert SameDigit(value[k], Hex(bytes)[k]);
      }
    }
  }

  ghost predicate SameText(value: string, text: string) {
    |value| == |text| && forall k :: 0 <= k < |text| ==> SameDigit(value[k], text[k])
  }

  lemma DigitOf(c: char)
    requires '0' <= c <= '9' || 'a' <= c <= 'f' || 'A' <= c <= 'F'
    ensures SameDigit(c, Nibble(NibbleOf(c)))
  {
  }

  // What a registration does to everyone: the newcomer is live; where the credential is single-access every other
  // instance of it is out, told so, and barred; nobody else is touched; an instance keeps its place in the order, and a
  // new instance comes after all others.
  lemma RegistrationTakesOver(s: State, id: string, instance: string, sid: string)
    requires Inv(s) && id in s.credentials && sid !in s.sessions
    ensures var t := AfterRegister(s, id, instance, sid); var single := s.credentials[id].single;
            && sid in t.sessions && t.sessions[sid].Live() && t.sessions[sid].instance == instance
            && (forall x :: x in s.sessions ==>
                 && x in t.sessions
                 && (if single && s.sessions[x].credential == id && s.sessions[x].instance != instance
                     then t.sessions[x].signal == Some(Replaced) else t.sessions[x] == s.sessions[x]))
            && (forall k :: k in s.orders ==> k in t.orders && t.orders[k] == s.orders[k])
            && (forall k :: k in t.retired <==>
                 k in s.retired || (single && k in s.orders && k.0 == id && k.1 != instance))
            && ((id, instance) !in s.orders ==> forall k :: k in s.orders ==> s.orders[k] < t.sessions[sid].order)
            && ((id, instance) in s.orders ==> t.sessions[sid].order == s.orders[(id, instance)])
  {
  }

  lemma RegisterKeepsInv(h: Hash, s: State, gatewayToken: string, userToken: Option<string>, instance: string,
                         legacy: bool, sid: string)
    requires Inv(s) && Admit(h, s, gatewayToken, userToken, instance, legacy).Ok?
    ensures Inv(AfterRegister(s, Admit(h, s, gatewayToken, userToken, instance, legacy).value, instance, sid))
  {
    EnrollKeepsInv(s, Admit(h, s, gatewayToken, userToken, instance, legacy).value, instance, sid);
  }

  lemma EnrollKeepsInv(s: State, id: string, instance: string, sid: string)
    requires Inv(s) && id in s.credentials && (id, instance) !in s.retired
    ensures Inv(AfterRegister(s, id, instance, sid))
  {
    var t := AfterRegister(s, id, instance, sid);
    assert OrdersWellFormed(t);
    forall x | x in t.sessions && t.sessions[x].Live() ensures LiveWellFormed(t, t.sessions[x]) {
      if x != sid {
        assert LiveWellFormed(s, s.sessions[x]);
        assert t.sessions[x] == s.sessions[x];
      }
    }
  }

  // Whoever counts the votes, the same instance wins.
  lemma ElectionIsUnique(s: State, config: Config, next: map<string, Credential>, c: string, a: string, b: string)
    requires Inv(s) && Elected(s, config, next, c, a) && Elected(s, config, next, c, b)
    ensures a == b
  {
  }

  lemma WinnersAreUnique(s: State, config: Config, next: map<string, Credential>,
                         v: map<string, string>, w: map<string, string>)
    requires Inv(s) && IsWinners(s, config, next, v) && IsWinners(s, config, next, w)
    ensures v == w
  {
  }

  // After any reload the survivors are exactly the sessions that were live, whose user kept name and reach, and whose
  // instance was elected where the credential is now single-access.
  lemma ReloadSurvivors(s: State, config: Config, next: map<string, Credential>, winners: map<string, string>,
                        sid: string)
    requires Inv(s) && IsWinners(s, config, next, winners) && sid in s.sessions
    ensures var t := AfterReload(s, config, next, winners); var session := s.sessions[sid]; var c := session.credential;
            t.sessions[sid].Live() <==>
              && session.Live() && !TokenChanged(s, config)
              && c in next && next[c].name == s.credentials[c].name
              && ListCovers(next[c].rules, s.credentials[c].rules)
              && (next[c].single ==> Elected(s, config, next, c, session.instance))
  {
  }

  predicate OtherInstance(s: State, id: string, instance: string, sid: string) {
    sid in s.sessions && s.sessions[sid].credential == id && s.sessions[sid].instance != instance
  }

  // The instance that came last wins: a reload right after a new instance registered never turns it out for another
  // one, and where the credential is single-access it turns out every other.
  lemma NewestInstanceWins(s: State, id: string, instance: string, sid: string,
                           config: Config, next: map<string, Credential>, winners: map<string, string>, other: string)
    requires Inv(s) && id in s.credentials && (id, instance) !in s.orders && sid !in s.sessions
    requires var t := AfterRegister(s, id, instance, sid);
             IsWinners(t, config, next, winners) && !TokenChanged(t, config)
    ensures var t := AfterRegister(s, id, instance, sid); var u := AfterReload(t, config, next, winners);
            && (u.sessions[sid].Live() <==>
                 id in next && next[id].name == s.credentials[id].name
                 && ListCovers(next[id].rules, s.credentials[id].rules))
            && (OtherInstance(s, id, instance, other) && id in next && next[id].single ==> !u.sessions[other].Live())
  {
    var t := AfterRegister(s, id, instance, sid);
    EnrollKeepsInv(s, id, instance, sid);
    forall x | Contends(t, config, next, x) && t.sessions[x].credential == id
      ensures t.sessions[x].order <= t.sessions[sid].order
    {
      assert LiveWellFormed(t, t.sessions[x]);
    }
    if id in next && next[id].single {
      assert ElectedBy(t, config, next, id, instance, sid);
    }
    ReloadSurvivors(t, config, next, winners, sid);
    if other in s.sessions {
      ReloadSurvivors(t, config, next, winners, other);
      if id in next && next[id].single && t.sessions[other].credential == id
         && Elected(t, config, next, id, t.sessions[other].instance)
      {
        ElectionIsUnique(t, config, next, id, t.sessions[other].instance, instance);
      }
    }
  }

  // A session told to stop by a reload is told `Replaced` when only the election went against it, else `Changed`; what
  // earlier reloads or registrations told it stands.
  lemma ReloadReasons(s: State, config: Config, next: map<string, Credential>, winners: map<string, string>,
                      sid: string)
    requires Inv(s) && IsWinners(s, config, next, winners) && sid in s.sessions
    ensures var t := AfterReload(s, config, next, winners); var session := s.sessions[sid]; var c := session.credential;
            && t.sessions.Keys == s.sessions.Keys
            && t.sessions[sid].(signal := None) == session.(signal := None)
            && (session.signal.Some? ==> t.sessions[sid] == session)
            && (session.Live() && !t.sessions[sid].Live() ==>
                 var kept := && !TokenChanged(s, config) && c in next && next[c].name == s.credentials[c].name
                             && ListCovers(next[c].rules, s.credentials[c].rules);
                 t.sessions[sid].signal == if kept then Some(Replaced) else Some(Changed))
  {
  }

  // A reload bars exactly the instances that lost an election, forgets nothing while the gateway token stays, and
  // never renumbers.
  lemma ReloadBars(s: State, config: Config, next: map<string, Credential>, winners: map<string, string>, k: Key)
    requires Inv(s) && IsWinners(s, config, next, winners) && !TokenChanged(s, config)
    ensures var t := AfterReload(s, config, next, winners);
            && t.orders == s.orders && t.nextOrder == s.nextOrder
            && (k in t.retired <==>
                 k in s.retired || (k in s.orders && exists w :: w != k.1 && Elected(s, config, next, k.0, w)))
  {
  }

  lemma ReloadKeepsInv(s: State, config: Config, next: map<string, Credential>, winners: map<string, string>)
    requires Inv(s) && IsWinners(s, config, next, winners)
    ensures Inv(AfterReload(s, config, next, winners))
  {
    var t := AfterReload(s, config, next, winners);
    forall x | x in t.sessions && t.sessions[x].Live() ensures LiveWellFormed(t, t.sessions[x]) {
      ReloadSurvivors(s, config, next, winners, x);
      var session := s.sessions[x];
      assert LiveWellFormed(s, session);
      assert t.sessions[x] == session;
      if session.credential in winners {
        var y :| ElectedBy(s, config, next, session.credential, winners[session.credential], y);
        ElectionIsUnique(s, config, next, session.credential, session.instance, winners[session.credential]);
      }
    }
  }

  // Reloading the configuration in force changes nothing at all.
  lemma ReloadOfCurrentIsNoop(s: State, winners: map<string, string>)
    requires Inv(s) && IsWinners(s, s.config, s.credentials, winners)
    ensures AfterReload(s, s.config, s.credentials, winners) == s
  {
  }

  // `SessionLease::drop`.
  function AfterDrop(s: State, sid: string): State {
    s.(sessions := s.sessions - {sid})
  }

  // A dropped session is gone, and nothing else changes.
  lemma DropTakesOne(s: State, sid: string, other: string)
    ensures var t := AfterDrop(s, sid);
            && sid !in t.sessions
            && (other != sid ==> (other in t.sessions <==> other in s.sessions)
                                 && (other in s.sessions ==> t.sessions[other] == s.sessions[other]))
            && t == s.(sessions := t.sessions)
  {
  }

  lemma DropKeepsInv(s: State, sid: string)
    requires Inv(s)
    ensures Inv(AfterDrop(s, sid))
  {
  }

  // The check before the name lookup only refuses early what the check after it would refuse as well, with the same
  // answer; in particular a user without permissions never causes a lookup.
  lemma EarlyRefusalIsFinal(s: State, session: Session, port: Port, resolved: seq<SocketAddr>)
    ensures AuthorizeStart(s, session, port).Err? && port != 0 ==>
              AuthorizeFinish(s, session, resolved) == Err(AuthorizeStart(s, session, port).error)
    ensures AuthorizeStart(s, session, port) == Err(InvalidPort) ==> port == 0 || session.signal == Some(InvalidPort)
  {
    if session.Live() && session.credential in s.credentials && s.credentials[session.credential].rules == [] {
      NothingAllowed(resolved);
    }
  }

  // `r` holds the allowed answers at `places`, in order, and no allowed answer stands anywhere else.
  ghost predicate Kept(rules: seq<AccessRule>, addresses: seq<SocketAddr>, r: seq<SocketAddr>, places: seq<nat>) {
    && |places| == |r|
    && (forall k :: 0 <= k < |r| ==> places[k] < |addresses| && r[k] == addresses[places[k]])
    && (forall k, l :: 0 <= k < l < |r| ==> places[k] < places[l])
    && (forall i :: 0 <= i < |addresses| ==> (i in places <==> ListAllows(rules, addresses[i])))
  }

  lemma KeptGrows(rules: seq<AccessRule>, addresses: seq<SocketAddr>, r: seq<SocketAddr>, places: seq<nat>,
                  last: SocketAddr)
    requires Kept(rules, addresses, r, places)
    ensures if ListAllows(rules, last) then Kept(rules, addresses + [last], r + [last], places + [|addresses|])
            else Kept(rules, addresses + [last], r, places)
  {
    assert forall k :: 0 <= k < |r| ==> places[k] in places;
  }

  // The addresses come in the resolver's order, each as often as it did.
  lemma {:induction false} AllowedInOrder(rules: seq<AccessRule>, addresses: seq<SocketAddr>) returns (places: seq<nat>)
    ensures Kept(rules, addresses, Allowed(rules, addresses), places)
  {
    if addresses == [] {
      places := [];
    } else {
      var n := |addresses| - 1;
      places := AllowedInOrder(rules, addresses[..n]);
      KeptGrows(rules, addresses[..n], Allowed(rules, addresses[..n]), places, addresses[n]);
      assert addresses == addresses[..n] + [addresses[n]];
      if ListAllows(rules, addresses[n]) {
        places := places + [n];
      }
    }
  }

  // The errors after the lookup, in order: the session's own signal, a vanished user, nothing allowed.
  lemma LateRefusalsAreTold(s: State, session: Session, resolved: seq<SocketAddr>)
    ensures var r := AuthorizeFinish(s, session, resolved);
            && (session.signal.Some? ==> r == Err(session.signal.value))
            && (session.Live() && session.credential !in s.credentials ==> r == Err(Unauthorized))
            && (session.Live() && session.credential in s.credentials && r.Err? ==> r == Err(Forbidden))
            && (r.Ok? ==> r.value != [])
  {
  }

  // Every answer of the name lookup carries the port that was asked for.
  ghost predicate OnPort(resolved: seq<SocketAddr>, port: Port) {
    forall i :: 0 <= i < |resolved| ==> resolved[i].port == port
  }

  predicate AdmitsPort(rule: AccessRule, port: Port) {
    match rule
    case Any => true
    case Address(_, p) => p.None? || p.value == port
  }

  ghost predicate LookupCanSucceed(s: State, session: Session, port: Port) {
    exists resolved :: OnPort(resolved, port) && AuthorizeFinish(s, session, resolved).Ok?
  }

  // Some answer of the lookup can be let through exactly if the session stands and one of its user's rules is `*`,
  // `IP:*`, or for that port.
  lemma LookupSucceedsExactly(s: State, session: Session, port: Port)
    ensures LookupCanSucceed(s, session, port) <==>
              && session.Live() && session.credential in s.credentials
              && exists i :: 0 <= i < |s.credentials[session.credential].rules|
                             && AdmitsPort(s.credentials[session.credential].rules[i], port)
  {
    if LookupCanSucceed(s, session, port) {
      var resolved :| OnPort(resolved, port) && AuthorizeFinish(s, session, resolved).Ok?;
      AuthorizedAddressesAreAllowed(s, session, resolved);
      var a :| a in resolved && ListAllows(s.credentials[session.credential].rules, a);
      var i :| 0 <= i < |s.credentials[session.credential].rules|
               && s.credentials[session.credential].rules[i].Allows(a);
      assert AdmitsPort(s.credentials[session.credential].rules[i], port);
    }
    if session.Live() && session.credential in s.credentials {
      var rules := s.credentials[session.credential].rules;
      if i :| 0 <= i < |rules| && AdmitsPort(rules[i], port) {
        var target := SocketAddr(if rules[i].Any? then V4(0) else rules[i].ip, port);
        assert rules[i].Allows(target) && target in [target];
        AuthorizedAddressesAreAllowed(s, session, [target]);
        assert OnPort([target], port) && AuthorizeFinish(s, session, [target]).Ok?;
      }
    }
  }

  // What the check before the lookup is worth: it refuses only hopeless calls (and port 0), and the hopeless calls it
  // lets go on are exactly those of a user who has rules, all of them for other ports.
  lemma EarlyRefusalIsExact(s: State, session: Session, port: Port)
    ensures port != 0 && LookupCanSucceed(s, session, port) ==> AuthorizeStart(s, session, port).Ok?
    ensures AuthorizeStart(s, session, port).Ok? && !LookupCanSucceed(s, session, port) <==>
              && port != 0 && session.Live() && session.credential in s.credentials
              && s.credentials[session.credential].rules != []
              && forall i :: 0 <= i < |s.credentials[session.credential].rules| ==>
                   !AdmitsPort(s.credentials[session.credential].rules[i], port)
  {
    LookupSucceedsExactly(s, session, port);
  }

  lemma {:induction false} NothingAllowed(addresses: seq<SocketAddr>)
    ensures Allowed([], addresses) == []
  {
    if addresses != [] {
      NothingAllowed(addresses[..|addresses| - 1]);
    }
  }

  // What the second lock of `authorize_target` hands out is exactly what the current rules allow.
  lemma AuthorizedAddressesAreAllowed(s: State, session: Session, resolved: seq<SocketAddr>)
    ensures var r := AuthorizeFinish(s, session, resolved);
            && (r.Ok? <==> session.Live() && session.credential in s.credentials
                           && exists a :: a in resolved && ListAllows(s.credentials[session.credential].rules, a))
            && (r.Ok? ==> forall a :: a in r.value <==>
                 a in resolved && ListAllows(s.credentials[session.credential].rules, a))
  {
    if session.Live() && session.credential in s.credentials {
      var addresses := Allowed(s.credentials[session.credential].rules, resolved);
      if addresses != [] {
        assert addresses[0] in addresses;
      }
    }
  }

  // The lookup for a handshake succeeds exactly for the gateway's id and, when users are on, a current user's id; it
  // yields the tokens those ids belong to.
  lemma BootstrapExactly(h: Hash, s: State, gatewayId: string, userId: Option<string>)
    requires TableInForce(h, s)
    ensures var r := Bootstrap(h, s, gatewayId, userId); var id := if userId.Some? then userId.value else "";
            && (r.Ok? <==> gatewayId == h(s.config.auth.accessToken)
                           && (s.config.auth.enabled ==>
                                exists token :: HasUserToken(s.config, token) && h(token) == id))
            && (r.Ok? ==> h(r.value.0) == gatewayId && r.value.0 == s.config.auth.accessToken)
            && (r.Ok? ==> (r.value.1.Some? <==> s.config.auth.enabled))
            && (r.Ok? && r.value.1.Some? ==> HasUserToken(s.config, r.value.1.value) && h(r.value.1.value) == id)
  {
  }

  // A handshake that got its tokens from this state registers, under the id it asked for, unless it was retired.
  lemma BootstrapLeadsToAdmission(h: Hash, s: State, gatewayId: string, userId: Option<string>, instance: string)
    requires TableInForce(h, s) && Bootstrap(h, s, gatewayId, userId).Ok? && ValidId(instance)
    ensures var tokens := Bootstrap(h, s, gatewayId, userId).value;
            var id := if s.config.auth.enabled then (if userId.Some? then userId.value else "") else gatewayId;
            Admit(h, s, tokens.0, tokens.1, instance, false)
              == (if (id, instance) in s.retired then Err(Replaced) else Ok(id))
  {
  }
}
