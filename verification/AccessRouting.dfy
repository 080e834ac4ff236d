// Which gateway a listener's connections go to: the gateway list of a configuration, the default URL and the lookup
// made for each connection (crates/ws-net-common/src/config.rs `gateway_configs`, crates/ws-net-access/src/app.rs).
module AccessRouting {
  import opened Basics

  datatype AccessGateway = AccessGateway(name: string, serverUrl: string, token: string, userToken: Option<string>)

  // Everything else a listener is configured with: addresses, schemes, certificates, rewriting.
  type ListenerSettings = string

  datatype Listener = Listener(
    name: string, http: bool, gateway: Option<string>, serverUrl: Option<string>, settings: ListenerSettings)

  datatype AccessConfig = AccessConfig(
    token: Option<string>,
    serverUrl: Option<string>,
    serverUrls: seq<string>,
    poolSize: nat,
    gateways: seq<AccessGateway>,
    listeners: seq<Listener>)

  datatype RouteError = NotAuthorised | NoGateways | BadGateway | DuplicateName | BothGiven | UnknownGateway | NoDefault

  // `.as_deref().map(str::trim).filter(|text| !text.is_empty())`
  function Given(text: Option<string>): Option<string> {
    if text.Some? && Trim(text.value) != "" then Some(Trim(text.value)) else None
  }

  function Digits(n: nat): (r: string)
    ensures r != "" && forall i :: 0 <= i < |r| ==> '0' <= r[i] <= '9'
  {
    if n < 10 then ["0123456789"[n]] else Digits(n / 10) + ["0123456789"[n % 10]]
  }

  function DecimalValue(digits: string): nat
    requires forall i :: 0 <= i < |digits| ==> '0' <= digits[i] <= '9'
  {
    if digits == "" then 0
    else 10 * DecimalValue(digits[..|digits| - 1]) + (digits[|digits| - 1] as int - '0' as int)
  }

  // The digits are the decimal ones, without a leading zero.
  lemma {:induction false} DigitsAreDecimal(n: nat)
    ensures DecimalValue(Digits(n)) == n && (n > 0 ==> Digits(n)[0] != '0')
  {
    var d := Digits(n);
    assert d[|d| - 1] as int - '0' as int == n % 10;
    if n >= 10 {
      DigitsAreDecimal(n / 10);
      assert d[..|d| - 1] == Digits(n / 10);
    }
  }

  lemma DigitsInjective(m: nat, n: nat)
    requires Digits(m) == Digits(n)
    ensures m == n
  {
    DigitsAreDecimal(m);
    DigitsAreDecimal(n);
  }

  // ---------------------------------------------------------------- the gateway list

  function AddUrl(urls: seq<string>, url: string): seq<string> {
    if Trim(url) == "" || Trim(url) in urls then urls else urls + [Trim(url)]
  }

  function AddUrls(urls: seq<string>, more: seq<string>): seq<string> {
    if more == [] then urls else AddUrl(AddUrls(urls, more[..|more| - 1]), more[|more| - 1])
  }

  function OptionalText(text: Option<string>): string {
    if text.Some? then text.value else ""
  }

  function ListenerUrls(listeners: seq<Listener>): seq<string> {
    seq(|listeners|, i requires 0 <= i < |listeners| => OptionalText(listeners[i].serverUrl))
  }

  // The URLs of a configuration without a gateway list: its own, then its further ones, then its listeners'.
  function LegacyUrls(config: AccessConfig): seq<string> {
    AddUrls(AddUrls(AddUrl([], OptionalText(config.serverUrl)), config.serverUrls), ListenerUrls(config.listeners))
  }

  function LegacyName(index: nat): string {
    "gateway-" + Digits(index + 1)
  }

  function Trimmed(g: AccessGateway): AccessGateway {
    g.(name := Trim(g.name), serverUrl := Trim(g.serverUrl))
  }

  function Gateways(config: AccessConfig): seq<AccessGateway> {
    if config.gateways == [] then
      var urls := LegacyUrls(config);
      seq(|urls|, i requires 0 <= i < |urls| => AccessGateway(LegacyName(i), urls[i], OptionalText(config.token), None))
    else
      seq(|config.gateways|, i requires 0 <= i < |config.gateways| => Trimmed(config.gateways[i]))
  }

  predicate ValidGateway(g: AccessGateway) {
    g.name != "" && g.serverUrl != "" && Trim(g.token) != "" && (g.userToken.Some? ==> Trim(g.userToken.value) != "")
  }

  ghost predicate DistinctNames(gateways: seq<AccessGateway>) {
    forall i, j :: 0 <= i < |gateways| && 0 <= j < |gateways| && i != j ==> gateways[i].name != gateways[j].name
  }

  predicate HasDefault(config: AccessConfig) {
    |Gateways(config)| == 1 || (config.gateways == [] && Given(config.serverUrl).Some?)
  }

  // The check `gateway_configs` makes of one listener.
  ghost predicate RouteAccepted(gateways: seq<AccessGateway>, hasDefault: bool, l: Listener) {
    var name, url := Given(l.gateway), Given(l.serverUrl);
    && !(name.Some? && url.Some?)
    && (name.Some? ==> exists i :: 0 <= i < |gateways| && gateways[i].name == name.value)
    && (name.None? && url.Some? ==> exists i :: 0 <= i < |gateways| && gateways[i].serverUrl == url.value)
    && (name.None? && url.None? ==> hasDefault)
  }

  ghost predicate ListenerAccepted(config: AccessConfig, l: Listener) {
    RouteAccepted(Gateways(config), HasDefault(config), l)
  }

  ghost predicate GatewaysAccepted(config: AccessConfig) {
    && (config.gateways == [] ==> Given(config.token).Some?)
    && Gateways(config) != []
    && (forall i :: 0 <= i < |Gateways(config)| ==> ValidGateway(Gateways(config)[i]))
    && DistinctNames(Gateways(config))
  }

  ghost predicate Accepted(config: AccessConfig) {
    && GatewaysAccepted(config)
    && forall i :: 0 <= i < |config.listeners| ==> ListenerAccepted(config, config.listeners[i])
  }

  // ---------------------------------------------------------------- the lookup

  // `default_server_url`; the second look at the gateway list is void if the configuration is not accepted.
  ghost function DefaultServerUrl(config: AccessConfig): Option<string> {
    if config.gateways != [] then
      if |config.gateways| == 1 then Some(Trim(config.gateways[0].serverUrl)) else None
    else if Given(config.serverUrl).Some? then Given(config.serverUrl)
    else if Accepted(config) && |Gateways(config)| == 1 then Some(Gateways(config)[0].serverUrl)
    else None
  }

  function FirstNamed(pools: seq<AccessGateway>, name: string): (r: Option<nat>)
    ensures r.Some? ==> r.value < |pools| && pools[r.value].name == name
                        && forall i :: 0 <= i < r.value ==> pools[i].name != name
    ensures r.None? ==> forall i :: 0 <= i < |pools| ==> pools[i].name != name
  {
    if pools == [] then None
    else
      var r := FirstNamed(pools[..|pools| - 1], name);
      if r.Some? then r else if pools[|pools| - 1].name == name then Some(|pools| - 1) else None
  }

  function FirstWithUrl(pools: seq<AccessGateway>, url: string): (r: Option<nat>)
    ensures r.Some? ==> r.value < |pools| && pools[r.value].serverUrl == url
                        && forall i :: 0 <= i < r.value ==> pools[i].serverUrl != url
    ensures r.None? ==> forall i :: 0 <= i < |pools| ==> pools[i].serverUrl != url
  {
    if pools == [] then None
    else
      var r := FirstWithUrl(pools[..|pools| - 1], url);
      if r.Some? then r else if pools[|pools| - 1].serverUrl == url then Some(|pools| - 1) else None
  }

  // `for_listener`: the index of the pool that serves the listener. A pool carries its gateway's name and URL.
  function ForListener(pools: seq<AccessGateway>, l: Listener, defaultUrl: Option<string>): Result<nat, RouteError> {
    var name, url := Given(l.gateway), Given(l.serverUrl);
    if name.Some? && url.Some? then Err(BothGiven)
    else
      var wanted := if url.Some? then url else defaultUrl;
      if name.Some? then
        var r := FirstNamed(pools, name.value); if r.Some? then Ok(r.value) else Err(UnknownGateway)
      else if wanted.Some? then
        var r := FirstWithUrl(pools, wanted.value); if r.Some? then Ok(r.value) else Err(UnknownGateway)
      else if |pools| == 1 then Ok(0) else Err(NoDefault)
  }

  // ---------------------------------------------------------------- what the list contains

  ghost predicate Distinct(urls: seq<string>) {
    forall i, j :: 0 <= i < j < |urls| ==> urls[i] != urls[j]
  }

  lemma {:induction false} AddUrlsKeeps(urls: seq<string>, more: seq<string>)
    ensures urls <= AddUrls(urls, more)
    ensures forall i :: 0 <= i < |more| && Trim(more[i]) != "" ==> Trim(more[i]) in AddUrls(urls, more)
    ensures (forall u :: u in urls ==> u != "" && Trim(u) == u) ==>
              forall u :: u in AddUrls(urls, more) ==> u != "" && Trim(u) == u
    ensures Distinct(urls) ==> Distinct(AddUrls(urls, more))
    ensures forall u :: u in AddUrls(urls, more) ==> u in urls || exists i :: 0 <= i < |more| && u == Trim(more[i])
  {
    if more != [] {
      var init, last := more[..|more| - 1], more[|more| - 1];
      AddUrlsKeeps(urls, init);
      TrimIdempotent(last);
      forall u | u in AddUrls(urls, more) && u !in urls ensures exists i :: 0 <= i < |more| && u == Trim(more[i]) {
        if u in AddUrls(urls, init) {
          var i :| 0 <= i < |init| && u == Trim(init[i]);
          assert more[i] == init[i];
        }
      }
      forall i | 0 <= i < |more| && Trim(more[i]) != "" ensures Trim(more[i]) in AddUrls(urls, more) {
        if i < |more| - 1 {
          assert init[i] == more[i];
        }
      }
    }
  }

  lemma LegacyUrlsComplete(config: AccessConfig)
    ensures var urls := LegacyUrls(config);
            && (forall u :: u in urls ==> u != "" && Trim(u) == u) && Distinct(urls)
            && (Given(config.serverUrl).Some? ==> urls != [] && urls[0] == Given(config.serverUrl).value)
            && (forall i :: 0 <= i < |config.listeners| && Given(config.listeners[i].serverUrl).Some? ==>
                 Given(config.listeners[i].serverUrl).value in urls)
  {
    var first := AddUrl([], OptionalText(config.serverUrl));
    TrimIdempotent(OptionalText(config.serverUrl));
    var second := AddUrls(first, config.serverUrls);
    AddUrlsKeeps(first, config.serverUrls);
    AddUrlsKeeps(second, ListenerUrls(config.listeners));
    forall i | 0 <= i < |config.listeners| && Given(config.listeners[i].serverUrl).Some?
      ensures Given(config.listeners[i].serverUrl).value in LegacyUrls(config)
    {
      assert ListenerUrls(config.listeners)[i] == config.listeners[i].serverUrl.value;
    }
  }

  // ---------------------------------------------------------------- from the configuration itself

  // The texts the URLs are taken from, in order: the configuration's own, its further ones, its listeners'.
  ghost function Wanted(config: AccessConfig): (w: seq<string>)
    ensures |w| == 1 + |config.serverUrls| + |config.listeners|
    ensures w[0] == (if config.serverUrl.Some? then config.serverUrl.value else "")
    ensures forall i :: 0 <= i < |config.serverUrls| ==> w[1 + i] == config.serverUrls[i]
    ensures forall i :: 0 <= i < |config.listeners| ==>
              var url := config.listeners[i].serverUrl;
              w[1 + |config.serverUrls| + i] == if url.Some? then url.value else ""
  {
    [OptionalText(config.serverUrl)] + config.serverUrls + ListenerUrls(config.listeners)
  }

  // The first of `more` that trims to `u`.
  ghost predicate FirstAt(more: seq<string>, u: string, k: nat) {
    k < |more| && Trim(more[k]) == u && forall j :: 0 <= j < k ==> Trim(more[j]) != u
  }

  // `urls` lists what is not blank among `more`, trimmed, each once, in the order of first occurrence.
  ghost predicate Lists(urls: seq<string>, more: seq<string>) {
    && (forall u :: u in urls <==> u != "" && exists k: nat :: FirstAt(more, u, k))
    && (forall i, j, a: nat, b: nat ::
         0 <= i < j < |urls| && FirstAt(more, urls[i], a) && FirstAt(more, urls[j], b) ==> a < b)
    && Distinct(urls)
  }

  lemma {:induction false} FirstExists(more: seq<string>, u: string, k: nat) returns (first: nat)
    requires k < |more| && Trim(more[k]) == u
    ensures first <= k && FirstAt(more, u, first)
  {
    first := k;
    if j :| 0 <= j < k && Trim(more[j]) == u {
      first := FirstExists(more, u, j);
    }
  }

  lemma FirstAtGrows(more: seq<string>, last: string, u: string, k: nat)
    requires k < |more|
    ensures FirstAt(more + [last], u, k) <==> FirstAt(more, u, k)
  {
    assert forall j :: 0 <= j < |more| ==> (more + [last])[j] == more[j];
  }

  lemma ListsGrows(urls: seq<string>, more: seq<string>, last: string)
    requires Lists(urls, more)
    ensures Lists(AddUrl(urls, last), more + [last])
  {
    var all, added := more + [last], AddUrl(urls, last);
    forall u ensures u in added <==> u != "" && exists k: nat :: FirstAt(all, u, k) {
      if u in urls {
        var k: nat :| FirstAt(more, u, k);
        FirstAtGrows(more, last, u, k);
      } else if u in added {
        var k := FirstExists(all, u, |more|);
      } else if k: nat :| u != "" && FirstAt(all, u, k) {
        if k < |more| {
          FirstAtGrows(more, last, u, k);
        }
      }
    }
    forall i, j, a: nat, b: nat | 0 <= i < j < |added| && FirstAt(all, added[i], a) && FirstAt(all, added[j], b)
      ensures a < b
    {
      assert added[i] == urls[i] && urls[i] in urls;
      var k: nat :| FirstAt(more, urls[i], k);
      FirstAtGrows(more, last, urls[i], k);
      if j < |urls| {
        assert urls[j] in urls;
        var l: nat :| FirstAt(more, urls[j], l);
        FirstAtGrows(more, last, urls[j], l);
      } else if b < |more| {
        FirstAtGrows(more, last, added[j], b);
      }
    }
  }

  lemma {:induction false} AddUrlsLists(more: seq<string>)
    ensures Lists(AddUrls([], more), more)
  {
    if more != [] {
      AddUrlsLists(more[..|more| - 1]);
      ListsGrows(AddUrls([], more[..|more| - 1]), more[..|more| - 1], more[|more| - 1]);
      assert more == more[..|more| - 1] + [more[|more| - 1]];
    }
  }

  lemma {:induction false} AddUrlsConcat(urls: seq<string>, a: seq<string>, b: seq<string>)
    ensures AddUrls(urls, a + b) == AddUrls(AddUrls(urls, a), b)
  {
    if b == [] {
      assert a + b == a;
    } else {
      AddUrlsConcat(urls, a, b[..|b| - 1]);
      assert (a + b)[..|a + b| - 1] == a + b[..|b| - 1];
    }
  }

  lemma LegacyUrlsExactly(config: AccessConfig)
    ensures Lists(LegacyUrls(config), Wanted(config))
    ensures LegacyUrls(config) != [] <==> exists k :: 0 <= k < |Wanted(config)| && HasInk(Wanted(config)[k])
  {
    var own := [OptionalText(config.serverUrl)];
    AddUrlsLists(Wanted(config));
    assert own[..0] == [] && AddUrls([], own) == AddUrl([], own[0]);
    AddUrlsConcat([], own, config.serverUrls);
    AddUrlsConcat([], own + config.serverUrls, ListenerUrls(config.listeners));
    ListsSomething(LegacyUrls(config), Wanted(config));
  }

  lemma ListsSomething(urls: seq<string>, w: seq<string>)
    requires Lists(urls, w)
    ensures urls != [] <==> exists k :: 0 <= k < |w| && HasInk(w[k])
  {
    if urls != [] {
      assert urls[0] in urls;
      var k: nat :| FirstAt(w, urls[0], k);
      TrimExactly(w[k]);
    }
    if k :| 0 <= k < |w| && HasInk(w[k]) {
      TrimExactly(w[k]);
      var first := FirstExists(w, Trim(w[k]), k);
      assert Trim(w[k]) in urls;
    }
  }

  // Without a gateway list there is one gateway for each URL, named by its place, with the configured token. With one,
  // the configured gateways stand as they are, names and URLs trimmed.
  lemma GatewaysExactly(config: AccessConfig, i: nat)
    requires i < |Gateways(config)|
    ensures config.gateways == [] && config.token.Some? ==>
              |Gateways(config)| == |LegacyUrls(config)|
              && Gateways(config)[i] ==
                   AccessGateway("gateway-" + Digits(i + 1), LegacyUrls(config)[i], config.token.value, None)
    ensures config.gateways != [] ==>
              |Gateways(config)| == |config.gateways|
              && Gateways(config)[i].token == config.gateways[i].token
              && Gateways(config)[i].userToken == config.gateways[i].userToken
              && Gateways(config)[i].name == Trim(config.gateways[i].name)
              && Gateways(config)[i].serverUrl == Trim(config.gateways[i].serverUrl)
  {
  }

  lemma LegacyNamesDistinct(config: AccessConfig)
    requires config.gateways == []
    ensures DistinctNames(Gateways(config))
  {
    var gateways := Gateways(config);
    forall i, j | 0 <= i < |gateways| && 0 <= j < |gateways| && i != j ensures gateways[i].name != gateways[j].name {
      if gateways[i].name == gateways[j].name {
        assert Digits(i + 1) == LegacyName(i)[8..] == LegacyName(j)[8..] == Digits(j + 1);
        DigitsInjective(i + 1, j + 1);
      }
    }
  }

  // Some URL is configured somewhere that is not blank.
  ghost predicate NamesSomeUrl(config: AccessConfig) {
    || (config.serverUrl.Some? && HasInk(config.serverUrl.value))
    || (exists i :: 0 <= i < |config.serverUrls| && HasInk(config.serverUrls[i]))
    || (exists i :: 0 <= i < |config.listeners| && ListenerNamesUrl(config.listeners[i]))
  }

  // A configuration without a gateway list is accepted exactly when it has a token, some URL, and a usable route for
  // each listener; its generated names never clash.
  lemma LegacyAcceptedExactly(config: AccessConfig)
    requires config.gateways == []
    ensures Accepted(config) <==>
              && config.token.Some? && HasInk(config.token.value) && NamesSomeUrl(config)
              && forall i :: 0 <= i < |config.listeners| ==> ListenerAccepted(config, config.listeners[i])
  {
    LegacyListAcceptedExactly(config);
  }

  lemma LegacyListAcceptedExactly(config: AccessConfig)
    requires config.gateways == []
    ensures GatewaysAccepted(config) <==> config.token.Some? && HasInk(config.token.value) && NamesSomeUrl(config)
  {
    LegacyNamesDistinct(config);
    LegacyUrlsExactly(config);
    WantedSomewhere(config);
    GivenExactly(config.token);
    if Given(config.token).Some? {
      LegacyGatewaysValid(config);
    }
  }

  lemma GivenExactly(text: Option<string>)
    ensures Given(text).Some? <==> text.Some? && HasInk(text.value)
    ensures Given(text).Some? ==> Given(text).value == Trim(text.value)
  {
    if text.Some? {
      TrimExactly(text.value);
    }
  }

  ghost predicate ListenerNamesUrl(l: Listener) {
    l.serverUrl.Some? && HasInk(l.serverUrl.value)
  }

  lemma WantedComesFromSomewhere(config: AccessConfig, k: nat)
    requires k < |Wanted(config)| && HasInk(Wanted(config)[k])
    ensures NamesSomeUrl(config)
  {
    var n := |config.serverUrls|;
    if 1 <= k <= n {
      assert Wanted(config)[1 + (k - 1)] == config.serverUrls[k - 1];
    } else if k > n {
      var i := k - 1 - n;
      assert Wanted(config)[1 + n + i] == OptionalText(config.listeners[i].serverUrl);
      assert ListenerNamesUrl(config.listeners[i]);
    }
  }

  lemma WantedSomewhere(config: AccessConfig)
    ensures (exists k :: 0 <= k < |Wanted(config)| && HasInk(Wanted(config)[k])) <==> NamesSomeUrl(config)
  {
    var w, n := Wanted(config), |config.serverUrls|;
    if k :| 0 <= k < |w| && HasInk(w[k]) {
      WantedComesFromSomewhere(config, k);
    }
    if config.serverUrl.Some? && HasInk(config.serverUrl.value) {
      assert HasInk(w[0]);
    } else if i :| 0 <= i < n && HasInk(config.serverUrls[i]) {
      assert HasInk(w[1 + i]);
    } else if i :| 0 <= i < |config.listeners| && ListenerNamesUrl(config.listeners[i]) {
      assert HasInk(w[1 + n + i]);
    }
  }

  lemma LegacyGatewaysValid(config: AccessConfig)
    requires config.gateways == [] && Given(config.token).Some?
    ensures forall i :: 0 <= i < |Gateways(config)| ==> ValidGateway(Gateways(config)[i])
  {
    LegacyUrlsComplete(config);
    var gateways, urls := Gateways(config), LegacyUrls(config);
    forall i | 0 <= i < |gateways| ensures ValidGateway(gateways[i]) {
      assert urls[i] in urls;
    }
  }

  // There, a listener that names a URL has a route unless it also names a gateway.
  lemma LegacyUrlListenersRoute(config: AccessConfig, i: nat)
    requires config.gateways == [] && i < |config.listeners| && Given(config.listeners[i].serverUrl).Some?
    ensures ListenerAccepted(config, config.listeners[i]) <==> Given(config.listeners[i].gateway).None?
  {
    LegacyUrlsComplete(config);
    var urls := LegacyUrls(config);
    var k :| 0 <= k < |urls| && urls[k] == Given(config.listeners[i].serverUrl).value;
    assert Gateways(config)[k].serverUrl == urls[k];
  }

  // ---------------------------------------------------------------- the theorem

  // With an acceptable gateway list, the check at load time is exact for the lookup at run time.
  lemma RouteCheckIsExact(config: AccessConfig, l: Listener)
    requires GatewaysAccepted(config)
    ensures ListenerAccepted(config, l) <==> ForListener(Gateways(config), l, DefaultServerUrl(config)).Ok?
  {
    var pools := Gateways(config);
    var name, url := Given(l.gateway), Given(l.serverUrl);
    if name.None? && url.None? {
      DefaultRoutes(config);
    }
  }

  lemma DefaultRoutes(config: AccessConfig)
    requires GatewaysAccepted(config)
    ensures var d := DefaultServerUrl(config); var pools := Gateways(config);
            && (d.Some? ==> HasDefault(config) && FirstWithUrl(pools, d.value) == Some(0))
            && (d.None? ==> (HasDefault(config) <==> |pools| == 1))
  {
    var pools := Gateways(config);
    if config.gateways == [] {
      LegacyUrlsComplete(config);
    }
    if DefaultServerUrl(config).Some? {
      assert pools[0].serverUrl == DefaultServerUrl(config).value;
    }
  }

  // For an accepted configuration there is a default URL exactly where listeners may do without a route, and then it
  // is the first gateway's.
  lemma DefaultUrlExactly(config: AccessConfig)
    requires Accepted(config)
    ensures var gateways := Gateways(config);
            DefaultServerUrl(config) ==
              if |gateways| == 1 || (config.gateways == [] && Given(config.serverUrl).Some?)
              then Some(gateways[0].serverUrl) else None
  {
    DefaultRoutes(config);
  }

  // Every listener of an accepted configuration reaches a pool: the first with the name it asks for, else the first
  // with the URL it asks for, else the first pool of all.
  lemma EveryListenerRoutes(config: AccessConfig, i: nat)
    requires Accepted(config) && i < |config.listeners|
    ensures var l := config.listeners[i]; var pools := Gateways(config);
            var r := ForListener(pools, l, DefaultServerUrl(config));
            && r.Ok? && r.value < |pools|
            && (Given(l.gateway).Some? ==>
                 pools[r.value].name == Given(l.gateway).value
                 && forall k :: 0 <= k < |pools| && pools[k].name == Given(l.gateway).value ==> k == r.value)
            && (Given(l.gateway).None? && Given(l.serverUrl).Some? ==>
                 pools[r.value].serverUrl == Given(l.serverUrl).value
                 && forall k :: 0 <= k < r.value ==> pools[k].serverUrl != Given(l.serverUrl).value)
            && (Given(l.gateway).None? && Given(l.serverUrl).None? ==> r.value == 0)
  {
    RouteCheckIsExact(config, config.listeners[i]);
    DefaultRoutes(config);
  }

  // ---------------------------------------------------------------- the loops of `gateway_configs`

  method PushUrls(urls: seq<string>, more: seq<string>) returns (r: seq<string>)
    ensures r == AddUrls(urls, more)
  {
    r := urls;
    for i := 0 to |more|
      invariant r == AddUrls(urls, more[..i])
    {
      var url := Trim(more[i]);
      if url != "" && url !in r {
        r := r + [url];
      }
      assert more[..i + 1][..i] == more[..i];
    }
    assert more[..|more|] == more;
  }

  method ListGateways(config: AccessConfig) returns (gateways: seq<AccessGateway>)
    ensures gateways == Gateways(config)
  {
    if config.gateways == [] {
      gateways := ListLegacyGateways(config);
    } else {
      gateways := [];
      for i := 0 to |config.gateways|
        invariant |gateways| == i
        invariant forall k :: 0 <= k < i ==> gateways[k] == Trimmed(config.gateways[k])
      {
        gateways := gateways + [Trimmed(config.gateways[i])];
      }
    }
  }

  method ListLegacyGateways(config: AccessConfig) returns (gateways: seq<AccessGateway>)
    requires config.gateways == []
    ensures gateways == Gateways(config)
  {
    var urls := CollectUrls(config);
    gateways := [];
    for i := 0 to |urls|
      invariant |gateways| == i
      invariant forall k :: 0 <= k < i ==>
        gateways[k] == AccessGateway(LegacyName(k), urls[k], OptionalText(config.token), None)
    {
      gateways := gateways + [AccessGateway(LegacyName(i), urls[i], OptionalText(config.token), None)];
    }
  }

  method CollectUrls(config: AccessConfig) returns (urls: seq<string>)
    ensures urls == LegacyUrls(config)
  {
    urls := [];
    if config.serverUrl.Some? {
      var url := Trim(config.serverUrl.value);
      if url != "" {
        urls := urls + [url];
      }
    }
    urls := PushUrls(urls, config.serverUrls);
    urls := PushUrls(urls, ListenerUrls(config.listeners));
  }

  method ContainsName(gateways: seq<AccessGateway>, n: nat, name: string) returns (found: bool)
    requires n <= |gateways|
    ensures found <==> exists i :: 0 <= i < n && gateways[i].name == name
  {
    found := false;
    for i := 0 to n
      invariant !found && forall k :: 0 <= k < i ==> gateways[k].name != name
    {
      if gateways[i].name == name {
        return true;
      }
    }
  }

  method ContainsUrl(gateways: seq<AccessGateway>, url: string) returns (found: bool)
    ensures found <==> exists i :: 0 <= i < |gateways| && gateways[i].serverUrl == url
  {
    found := false;
    for i := 0 to |gateways|
      invariant !found && forall k :: 0 <= k < i ==> gateways[k].serverUrl != url
    {
      if gateways[i].serverUrl == url {
        return true;
      }
    }
  }

  method CheckGateways(gateways: seq<AccessGateway>) returns (error: Option<RouteError>)
    ensures error.None? <==> gateways != [] && DistinctNames(gateways)
                             && forall i :: 0 <= i < |gateways| ==> ValidGateway(gateways[i])
  {
    if gateways == [] {
      return Some(NoGateways);
    }
    for i := 0 to |gateways|
      invariant forall k :: 0 <= k < i ==> ValidGateway(gateways[k])
    {
      if !ValidGateway(gateways[i]) {
        return Some(BadGateway);
      }
    }
    for i := 0 to |gateways|
      invariant forall j, k :: 0 <= j < i && 0 <= k < i && j != k ==> gateways[j].name != gateways[k].name
    {
      var found := ContainsName(gateways, i, gateways[i].name);
      if found {
        return Some(DuplicateName);
      }
    }
    return None;
  }

  method CheckListener(gateways: seq<AccessGateway>, hasDefault: bool, l: Listener) returns (error: Option<RouteError>)
    ensures error.None? <==> RouteAccepted(gateways, hasDefault, l)
  {
    var name, url := Given(l.gateway), Given(l.serverUrl);
    if name.Some? && url.Some? {
      return Some(BothGiven);
    }
    if name.Some? {
      var found := ContainsName(gateways, |gateways|, name.value);
      return if found then None else Some(UnknownGateway);
    } else if url.Some? {
      var found := ContainsUrl(gateways, url.value);
      return if found then None else Some(UnknownGateway);
    } else if !hasDefault {
      return Some(NoDefault);
    }
    return None;
  }

  method CheckListeners(gateways: seq<AccessGateway>, hasDefault: bool, listeners: seq<Listener>)
    returns (error: Option<RouteError>)
    ensures error.None? <==> forall i :: 0 <= i < |listeners| ==> RouteAccepted(gateways, hasDefault, listeners[i])
  {
    for i := 0 to |listeners|
      invariant forall k :: 0 <= k < i ==> RouteAccepted(gateways, hasDefault, listeners[k])
    {
      error := CheckListener(gateways, hasDefault, listeners[i]);
      if error.Some? {
        return;
      }
    }
    return None;
  }

  method GatewayConfigs(config: AccessConfig) returns (r: Result<seq<AccessGateway>, RouteError>)
    ensures r.Ok? <==> Accepted(config)
    ensures r.Ok? ==> r.value == Gateways(config)
  {
    if config.gateways == [] && Given(config.token).None? {
      return Err(NotAuthorised);
    }
    var gateways := ListGateways(config);
    var error := CheckGateways(gateways);
    if error.Some? {
      return Err(error.value);
    }
    var hasDefault := |gateways| == 1 || (config.gateways == [] && Given(config.serverUrl).Some?);
    error := CheckListeners(gateways, hasDefault, config.listeners);
    if error.Some? {
      return Err(error.value);
    }
    return Ok(gateways);
  }

  // `default_server_url`
  method ComputeDefaultUrl(config: AccessConfig) returns (url: Option<string>)
    ensures url == DefaultServerUrl(config)
  {
    if config.gateways != [] {
      return if |config.gateways| == 1 then Some(Trim(config.gateways[0].serverUrl)) else None;
    }
    var legacy := Given(config.serverUrl);
    if legacy.Some? {
      return legacy;
    }
    var gateways := GatewayConfigs(config);
    if gateways.Ok? && |gateways.value| == 1 {
      return Some(gateways.value[0].serverUrl);
    }
    return None;
  }
}
