// Gateway configuration: validation, and the credential table built from it
// (crates/ws-net-common/src/config.rs, crates/ws-net-gateway/src/app.rs `credentials`).
module GatewayConfig {
  import opened Basics
  import opened AccessRules

  // `listenValid` is the outcome of parsing `listen` as IP:port.
  datatype GatewaySection = GatewaySection(listen: string, listenValid: bool, path: string)

  datatype GatewayAuth = GatewayAuth(accessToken: string, enabled: bool, singleAccess: bool)

  // `rules` is the outcome of parsing the user's `allow` list.
  datatype GatewayUser = GatewayUser(
    name: string, token: string, singleAccess: Option<bool>, rules: Option<seq<AccessRule>>)
  {
    predicate SingleAccess(auth: GatewayAuth) {
      if this.singleAccess.Some? then this.singleAccess.value else auth.singleAccess
    }
  }

  datatype Config = Config(gateway: GatewaySection, auth: GatewayAuth, users: seq<GatewayUser>)

  datatype Credential = Credential(token: string, name: string, single: bool, rules: seq<AccessRule>)

  // `credential_id` is a hash; nothing here depends on which one.
  type Hash = string -> string

  const SHARED_NAME := "共享 Token"

  predicate IsControl(c: char) {
    (c as int) < 0x20 || 0x7F <= (c as int) <= 0x9F
  }

  predicate ValidUsername(name: string) {
    Trim(name) != "" && forall i :: 0 <= i < |name| ==> !IsControl(name[i])
  }

  predicate ValidUser(user: GatewayUser, auth: GatewayAuth) {
    && ValidUsername(user.name)
    && Trim(user.token) != ""
    && user.token != auth.accessToken
    && user.rules.Some?
  }

  predicate ValidPath(path: string) {
    path != "" && path[0] == '/' && '?' !in path && '#' !in path
  }

  // What an accepted configuration looks like as a whole, rather than check by check.
  ghost predicate ValidConfig(config: Config) {
    && Trim(config.auth.accessToken) != ""
    && config.gateway.listenValid
    && ValidPath(config.gateway.path)
    && (forall i :: 0 <= i < |config.users| ==> ValidUser(config.users[i], config.auth))
    && DistinctUsers(config.users)
  }

  ghost predicate DistinctUsers(users: seq<GatewayUser>) {
    forall i, j :: 0 <= i < |users| && 0 <= j < |users| && i != j ==>
      users[i].name != users[j].name && users[i].token != users[j].token
  }

  // `self.users[..index].iter().any(..)`, once for names and once for tokens.
  method AnyPrevious(users: seq<GatewayUser>, index: nat) returns (sameName: bool, sameToken: bool)
    requires index < |users|
    ensures sameName <==> exists j :: 0 <= j < index && users[j].name == users[index].name
    ensures sameToken <==> exists j :: 0 <= j < index && users[j].token == users[index].token
  {
    sameName, sameToken := false, false;
    for j := 0 to index
      invariant sameName <==> exists i :: 0 <= i < j && users[i].name == users[index].name
      invariant sameToken <==> exists i :: 0 <= i < j && users[i].token == users[index].token
    {
      if users[j].name == users[index].name {
        sameName := true;
      }
      if users[j].token == users[index].token {
        sameToken := true;
      }
    }
  }

  lemma DistinctGrows(users: seq<GatewayUser>, index: nat)
    requires index < |users| && DistinctUsers(users[..index])
    requires forall j :: 0 <= j < index ==> users[j].name != users[index].name && users[j].token != users[index].token
    ensures DistinctUsers(users[..index + 1])
  {
    assert forall j :: 0 <= j < index ==> users[..index][j] == users[j];
  }

  method Validate(config: Config) returns (ok: bool)
    ensures ok <==> ValidConfig(config)
  {
    if Trim(config.auth.accessToken) == "" {
      return false;
    }
    if !config.gateway.listenValid {
      return false;
    }
    if !ValidPath(config.gateway.path) {
      return false;
    }
    for index := 0 to |config.users|
      invariant forall i :: 0 <= i < index ==> ValidUser(config.users[i], config.auth)
      invariant DistinctUsers(config.users[..index])
    {
      var user := config.users[index];
      if !ValidUsername(user.name) || Trim(user.token) == "" || user.token == config.auth.accessToken {
        return false;
      }
      var sameName, sameToken := AnyPrevious(config.users, index);
      if sameName || sameToken {
        return false;
      }
      if user.rules.None? {
        return false;
      }
      DistinctGrows(config.users, index);
    }
    assert config.users[..|config.users|] == config.users;
    return true;
  }

  function UserCredential(user: GatewayUser, auth: GatewayAuth): Credential {
    Credential(user.token, user.name, user.SingleAccess(auth), if user.rules.Some? then user.rules.value else [])
  }

  function UserId(h: Hash, users: seq<GatewayUser>, i: nat): string
    requires i < |users|
  {
    h(users[i].token)
  }

  // Two of the first n users share a credential id.
  ghost predicate HashCollision(h: Hash, users: seq<GatewayUser>, n: nat)
    requires n <= |users|
  {
    exists i, j :: 0 <= i < j < n && UserId(h, users, i) == UserId(h, users, j)
  }

  // When `credentials` succeeds.
  ghost predicate Loadable(h: Hash, config: Config) {
    ValidConfig(config) && (config.auth.enabled ==> !HashCollision(h, config.users, |config.users|))
  }

  // The table holds one entry for each user, under the hash of that user's token; or only the shared token's entry
  // when the user system is off.
  ghost predicate IsCredentialTable(h: Hash, config: Config, table: map<string, Credential>) {
    if config.auth.enabled then
      UserTable(h, config, |config.users|, table)
    else
      table == map[h(config.auth.accessToken) := Credential(config.auth.accessToken, SHARED_NAME, false, [Any])]
  }

  ghost predicate UserTable(h: Hash, config: Config, n: nat, table: map<string, Credential>)
    requires n <= |config.users|
  {
    && (forall i :: 0 <= i < n ==>
         var id := UserId(h, config.users, i); id in table && table[id] == UserCredential(config.users[i], config.auth))
    && (forall id :: id in table ==> exists i :: 0 <= i < n && UserId(h, config.users, i) == id)
  }

  lemma NextUser(h: Hash, config: Config, n: nat, table: map<string, Credential>)
    requires n < |config.users| && UserTable(h, config, n, table)
    requires !HashCollision(h, config.users, n) && UserId(h, config.users, n) !in table
    ensures UserTable(h, config, n + 1,
                      table[UserId(h, config.users, n) := UserCredential(config.users[n], config.auth)])
    ensures !HashCollision(h, config.users, n + 1)
  {
    var id := UserId(h, config.users, n);
    var grown := table[id := UserCredential(config.users[n], config.auth)];
    forall k | k in grown ensures exists i :: 0 <= i < n + 1 && UserId(h, config.users, i) == k {
      if k in table {
        var i :| 0 <= i < n && UserId(h, config.users, i) == k;
      }
    }
  }

  method Credentials(h: Hash, config: Config) returns (r: Option<map<string, Credential>>)
    ensures r.Some? <==> Loadable(h, config)
    ensures r.Some? ==> IsCredentialTable(h, config, r.value)
  {
    var valid := Validate(config);
    if !valid {
      return None;
    }
    if !config.auth.enabled {
      return Some(map[h(config.auth.accessToken) := Credential(config.auth.accessToken, SHARED_NAME, false, [Any])]);
    }
    var credentials: map<string, Credential> := map[];
    for n := 0 to |config.users|
      invariant UserTable(h, config, n, credentials)
      invariant !HashCollision(h, config.users, n)
    {
      var id := UserId(h, config.users, n);
      if id in credentials {
        return None;
      }
      NextUser(h, config, n, credentials);
      credentials := credentials[id := UserCredential(config.users[n], config.auth)];
    }
    return Some(credentials);
  }

  // A configuration determines its table.
  lemma CredentialTableUnique(h: Hash, config: Config, a: map<string, Credential>, b: map<string, Credential>)
    requires IsCredentialTable(h, config, a) && IsCredentialTable(h, config, b)
    ensures a == b
  {
  }

  // Every entry is reached under the hash of its own token, and the shared token is never a user's token.
  lemma CredentialTableSound(h: Hash, config: Config, table: map<string, Credential>)
    requires ValidConfig(config) && IsCredentialTable(h, config, table)
    ensures forall id :: id in table ==> h(table[id].token) == id
    ensures config.auth.enabled ==> forall id :: id in table ==> table[id].token != config.auth.accessToken
    ensures forall a, b :: a in table && b in table && table[a].name == table[b].name ==> a == b
  {
  }

  // What the table holds of each user: the name, the rules, and single access by the user's own setting where there is
  // one, else by the common one.
  lemma UserEntryHolds(h: Hash, config: Config, table: map<string, Credential>, i: nat)
    requires ValidConfig(config) && IsCredentialTable(h, config, table) && config.auth.enabled && i < |config.users|
    ensures var user := config.users[i]; var id := h(user.token);
            && id in table
            && table[id].token == user.token && table[id].name == user.name && Some(table[id].rules) == user.rules
            && (table[id].single <==>
                 user.singleAccess == Some(true) || (user.singleAccess == None && config.auth.singleAccess))
  {
    assert UserId(h, config.users, i) in table;
    assert ValidUser(config.users[i], config.auth);
  }

  // With users off there is one entry, for the shared token, shared by all instances and allowed everywhere.
  lemma SharedEntryHolds(h: Hash, config: Config, table: map<string, Credential>, address: SocketAddr)
    requires IsCredentialTable(h, config, table) && !config.auth.enabled
    ensures var id := h(config.auth.accessToken);
            && table.Keys == {id} && table[id].token == config.auth.accessToken && table[id].name == "共享 Token"
            && !table[id].single && ListAllows(table[id].rules, address)
  {
    var rules := table[h(config.auth.accessToken)].rules;
    assert rules == [Any] && rules[0].Allows(address);
  }

  // What validation comes to, in terms of the texts themselves.
  lemma ValidExactly(config: Config)
    ensures ValidConfig(config) <==>
              && HasInk(config.auth.accessToken) && config.gateway.listenValid
              && (config.gateway.path != "" && config.gateway.path[0] == '/')
              && (forall i :: 0 <= i < |config.gateway.path| ==>
                   config.gateway.path[i] != '?' && config.gateway.path[i] != '#')
              && (forall i :: 0 <= i < |config.users| ==> UserStands(config.users[i], config.auth.accessToken))
              && (forall i, j :: 0 <= i < j < |config.users| ==>
                   config.users[i].name != config.users[j].name && config.users[i].token != config.users[j].token)
  {
    TrimExactly(config.auth.accessToken);
    forall i | 0 <= i < |config.users|
      ensures ValidUser(config.users[i], config.auth) <==> UserStands(config.users[i], config.auth.accessToken)
    {
      TrimExactly(config.users[i].name);
      TrimExactly(config.users[i].token);
    }
  }

  // C0 controls, DEL and C1 controls are the Unicode control characters.
  ghost predicate UserStands(user: GatewayUser, shared: string) {
    && HasInk(user.name) && HasInk(user.token) && user.token != shared && user.rules.Some?
    && forall i :: 0 <= i < |user.name| ==>
         var n := user.name[i] as int; 0x20 <= n < 0x7F || 0xA0 <= n
  }
}
