// A concrete run in which the reason a session was told to stop for is replaced by another: reload leaves an earlier
// signal alone, registration does not (crates/ws-net-gateway/src/app.rs, `register` and `reload`).
module SignalReasons {
  import opened Basics
  import opened AccessRules
  import opened GatewayConfig
  import opened SessionAuthority
  import opened SessionRuns

  function SampleConfig(rules: seq<AccessRule>): Config {
    Config(
      GatewaySection("1", true, "/"),
      GatewayAuth("gate", true, true),
      [GatewayUser("user", "token", None, Some(rules))])
  }

  function SampleTable(rules: seq<AccessRule>): map<string, Credential> {
    map["token" := Credential("token", "user", true, rules)]
  }

  function Plain(token: string): string {
    token
  }

  function Instance(digit: char): string {
    seq(64, i => digit)
  }

  function Joins(digit: char, sid: string): Event {
    Register("gate", Some("token"), Instance(digit), false, sid)
  }

  // The user's permissions are withdrawn while instance a holds the session.
  function SampleEvents(): seq<Event> {
    [Joins('a', "1"), Reload(SampleConfig([]), SampleTable([]), map["token" := Instance('a')]), Joins('b', "2")]
  }

  function StartState(): State {
    Initial(SampleConfig([Any]), SampleTable([Any]))
  }

  function JoinedState(): State {
    StartState().(
      sessions := map["1" := Session("token", Instance('a'), 1, None)],
      orders := map[("token", Instance('a')) := 1],
      nextOrder := 1)
  }

  function ReloadedState(): State {
    JoinedState().(
      config := SampleConfig([]),
      credentials := SampleTable([]),
      sessions := map["1" := Session("token", Instance('a'), 1, Some(Changed))])
  }

  function SampleRun(): seq<System> {
    var reloaded := System(ReloadedState(), map["1" := "user"], multiset{}, {});
    [System(StartState(), map[], multiset{}, {}), System(JoinedState(), map["1" := "user"], multiset{}, {}), reloaded,
     Apply(Plain, reloaded, Joins('b', "2"))]
  }

  lemma Untrimmed(s: string)
    requires s != "" && !IsSpace(s[0]) && !IsSpace(s[|s| - 1])
    ensures Trim(s) == s
  {
  }

  lemma SampleLoads(rules: seq<AccessRule>)
    ensures Loadable(Plain, SampleConfig(rules)) && IsCredentialTable(Plain, SampleConfig(rules), SampleTable(rules))
  {
    Untrimmed("gate");
    Untrimmed("user");
    Untrimmed("token");
    var config := SampleConfig(rules);
    assert ValidUser(config.users[0], config.auth);
    assert UserId(Plain, config.users, 0) == "token";
  }

  lemma FirstJoins()
    ensures Stepped(Plain, SampleRun(), SampleEvents(), 0)
  {
    assert ValidId(Instance('a'));
    assert Others(map[], "token", Instance('a')) == {};
    assert KickOthers(map[], "token", Instance('a')) == map[];
    assert AfterRegister(StartState(), "token", Instance('a'), "1") == JoinedState();
  }

  lemma OnlyInstanceWins()
    ensures IsWinners(JoinedState(), SampleConfig([]), SampleTable([]), map["token" := Instance('a')])
  {
    assert ElectedBy(JoinedState(), SampleConfig([]), SampleTable([]), "token", Instance('a'), "1");
  }

  lemma PermissionsGo()
    ensures AfterReload(JoinedState(), SampleConfig([]), SampleTable([]), map["token" := Instance('a')])
              == ReloadedState()
  {
    var s, winners := JoinedState(), map["token" := Instance('a')];
    assert !ListCovers([], [Any]) by {
      assert [Any][0] == Any && !ListCoversRule([], Any);
    }
    assert Verdict(s, SampleConfig([]), SampleTable([]), winners, s.sessions["1"]) == Some(Changed);
    assert SignalledSessions(s, SampleConfig([]), SampleTable([]), winners) == ReloadedState().sessions;
    assert Losers(s.orders, winners) == {};
  }

  lemma ReloadIsEnabled()
    ensures Enabled(Plain, SampleRun()[1], SampleEvents()[1])
  {
    SampleLoads([]);
    OnlyInstanceWins();
  }

  lemma PermissionsReload()
    ensures Stepped(Plain, SampleRun(), SampleEvents(), 1)
    ensures "1" in SampleRun()[2].state.sessions && SampleRun()[2].state.sessions["1"].signal == Some(Changed)
  {
    ReloadIsEnabled();
    PermissionsGo();
  }

  lemma SecondIsAdmitted()
    ensures Admit(Plain, ReloadedState(), "gate", Some("token"), Instance('b'), false) == Ok("token")
    ensures var after := AfterRegister(ReloadedState(), "token", Instance('b'), "2");
            "1" in after.sessions && after.sessions["1"].signal == Some(Replaced)
  {
    assert ValidId(Instance('b'));
    assert Instance('a')[0] != Instance('b')[0];
  }

  lemma SecondJoins()
    ensures Stepped(Plain, SampleRun(), SampleEvents(), 2)
    ensures "1" in SampleRun()[3].state.sessions && SampleRun()[3].state.sessions["1"].signal == Some(Replaced)
  {
    SecondIsAdmitted();
  }

  lemma SampleStarts()
    ensures Starts(Plain, SampleRun()[0])
  {
    SampleLoads([Any]);
  }

  lemma ThreeStepsMakeARun(h: Hash, run: seq<System>, events: seq<Event>)
    requires |run| == 4 && |events| == 3 && Starts(h, run[0])
    requires Stepped(h, run, events, 0) && Stepped(h, run, events, 1) && Stepped(h, run, events, 2)
    ensures Run(h, run, events)
  {
  }

  lemma ReasonCanChange() returns (run: seq<System>, events: seq<Event>)
    ensures Run(Plain, run, events) && |run| == 4
    ensures "1" in run[2].state.sessions && run[2].state.sessions["1"].signal == Some(Changed)
    ensures "1" in run[3].state.sessions && run[3].state.sessions["1"].signal == Some(Replaced)
  {
    run, events := SampleRun(), SampleEvents();
    SampleStarts();
    FirstJoins();
    PermissionsReload();
    SecondJoins();
    ThreeStepsMakeARun(Plain, run, events);
  }
}
