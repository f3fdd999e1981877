/**
  The route compiler of cmd/api/caddy.go: app routes, force-HTTPS flags, the dashboard host and the
  TLS mode become route lists that Caddy evaluates first match first.
  */
module CaddyRoutes {
  import opened Shared

  datatype Route = Route(
    containerName: string,
    deploymentID: string,
    hosts: seq<string>,
    target: string,
    createdAt: int,
    updatedAt: int)

  /** RouteManager.routes, keyed by container name. */
  type Table = map<string, Route>

  datatype Config = Config(httpPort: string, httpsPort: string, enableTLS: bool)

  /** The dashboard's public host ("" when unset) and what serves it. */
  datatype Platform = Platform(host: string, apiUpstream: string, dashboardUpstream: string)

  // ----- Caddy's side -----

  datatype Handler = Proxy(dial: string) | RedirectToHTTPS

  /** Matches when the host is listed and, if a path prefix is given, the path starts with it. */
  datatype CaddyRoute = CaddyRoute(hosts: seq<string>, pathPrefix: string, handler: Handler)

  datatype Server = Server(listen: string, routes: seq<CaddyRoute>)

  predicate Matches(r: CaddyRoute, host: string, path: string) {
    host in r.hosts && r.pathPrefix <= path
  }

  /** Every generated route is terminal, so the first match answers. */
  function FirstMatch(routes: seq<CaddyRoute>, host: string, path: string): Option<Handler> {
    if routes == [] then None
    else if Matches(routes[0], host, path) then Some(routes[0].handler)
    else FirstMatch(routes[1..], host, path)
  }

  /** The answer to a request for `host` and `path` that arrives on `port`. */
  function Evaluate(servers: seq<Server>, port: string, host: string, path: string): Option<Handler> {
    if servers == [] then None
    else if servers[0].listen == port then FirstMatch(servers[0].routes, host, path)
    else Evaluate(servers[1..], port, host, path)
  }

  // ----- the compiler, for a given iteration order of the table -----

  function PlatformRoutes(p: Platform): seq<CaddyRoute> {
    if p.host == "" then []
    else [CaddyRoute([p.host], "/api/", Proxy(p.apiUpstream)), CaddyRoute([p.host], "", Proxy(p.dashboardUpstream))]
  }

  function PlatformHTTPSRedirect(p: Platform): seq<CaddyRoute> {
    if p.host == "" then [] else [CaddyRoute([p.host], "", RedirectToHTTPS)]
  }

  function ProxyRoutes(order: seq<string>, table: Table): seq<CaddyRoute>
    requires forall k :: k in order ==> k in table
  {
    if order == [] then []
    else
      var last := table[order[|order| - 1]];
      ProxyRoutes(order[..|order| - 1], table) + [CaddyRoute(last.hosts, "", Proxy(last.target))]
  }

  predicate IsForced(flags: map<string, bool>, r: Route) {
    r.deploymentID in flags && flags[r.deploymentID]
  }

  function RedirectRoutes(order: seq<string>, table: Table, flags: map<string, bool>): seq<CaddyRoute>
    requires forall k :: k in order ==> k in table
  {
    if order == [] then []
    else
      var last := table[order[|order| - 1]];
      RedirectRoutes(order[..|order| - 1], table, flags) +
      (if IsForced(flags, last) then [CaddyRoute(last.hosts, "", RedirectToHTTPS)] else [])
  }

  function DeploymentIDs(table: Table): set<string> {
    set k | k in table && table[k].deploymentID != "" :: table[k].deploymentID
  }

  /** The flags of the deployments in the table; none when the lookup fails. */
  function LoadedFlags(table: Table, lookup: Option<map<string, bool>>): map<string, bool> {
    match lookup
    case None => map[]
    case Some(all) => map d | d in DeploymentIDs(table) && d in all :: all[d]
  }

  /**
    The whole payload.  The table is visited twice, once for the proxy routes and once for the
    redirects, and the two visits need not agree on the order.
    */
  function Payload(config: Config, p: Platform, table: Table, flags: map<string, bool>,
                   order: seq<string>, order': seq<string>): seq<Server>
    requires forall k :: k in order ==> k in table
    requires forall k :: k in order' ==> k in table
  {
    var routes := PlatformRoutes(p) + ProxyRoutes(order, table);
    if config.enableTLS then
      [Server(config.httpsPort, routes),
       Server(config.httpPort, PlatformHTTPSRedirect(p) + (RedirectRoutes(order', table, flags) + routes))]
    else
      [Server(config.httpPort, routes)]
  }

  // ----- the routing the platform promises -----

  /** Some container of the host belongs to a deployment whose flag is set. */
  predicate ForcesHost(table: Table, flags: map<string, bool>, host: string) {
    exists k :: k in table && host in table[k].hosts && table[k].deploymentID in flags && flags[table[k].deploymentID] == true
  }

  /** The same, said of what the store answers. */
  predicate StoreForcesHost(table: Table, lookup: Option<map<string, bool>>, host: string) {
    lookup.Some? &&
    exists k :: k in table && host in table[k].hosts && table[k].deploymentID != "" &&
                table[k].deploymentID in lookup.value && lookup.value[table[k].deploymentID] == true
  }

  lemma LoadedFlagsForce(table: Table, lookup: Option<map<string, bool>>, host: string)
    ensures ForcesHost(table, LoadedFlags(table, lookup), host) <==> StoreForcesHost(table, lookup, host)
  {
    if StoreForcesHost(table, lookup, host) {
      var k :| k in table && host in table[k].hosts && table[k].deploymentID != "" &&
               table[k].deploymentID in lookup.value && lookup.value[table[k].deploymentID] == true;
      assert table[k].deploymentID in DeploymentIDs(table);
    }
  }

  /** `answer` proxies to the first container in `order` that claims the host. */
  ghost predicate AppAnswer(order: seq<string>, table: Table, host: string, answer: Option<Handler>)
    requires forall k :: k in order ==> k in table
  {
    match answer
    case None => forall i :: 0 <= i < |order| ==> host !in table[order[i]].hosts
    case Some(h) =>
      exists i :: 0 <= i < |order| && host in table[order[i]].hosts && h == Proxy(table[order[i]].target)
                  && forall j :: 0 <= j < i ==> host !in table[order[j]].hosts
  }

  ghost predicate PlatformOrApp(p: Platform, order: seq<string>, table: Table, host: string, path: string,
                                answer: Option<Handler>)
    requires forall k :: k in order ==> k in table
  {
    if host == p.host && host != "" then
      answer == Some(Proxy(if "/api/" <= path then p.apiUpstream else p.dashboardUpstream))
    else AppAnswer(order, table, host, answer)
  }

  /** The routing spec: dashboard first, a forced host redirected on the HTTP port, the rest proxied. */
  ghost predicate Promised(config: Config, p: Platform, table: Table, forced: bool, order: seq<string>,
                           port: string, host: string, path: string, answer: Option<Handler>)
    requires forall k :: k in order ==> k in table
  {
    if config.enableTLS && port == config.httpPort then
      if (host == p.host && host != "") || forced then answer == Some(RedirectToHTTPS)
      else AppAnswer(order, table, host, answer)
    else if port == (if config.enableTLS then config.httpsPort else config.httpPort) then
      PlatformOrApp(p, order, table, host, path, answer)
    else answer == None
  }

  // ----- first-match facts -----

  lemma {:induction false} FirstMatchAppend(a: seq<CaddyRoute>, b: seq<CaddyRoute>, host: string, path: string)
    ensures FirstMatch(a + b, host, path) ==
            if FirstMatch(a, host, path) == None then FirstMatch(b, host, path) else FirstMatch(a, host, path)
  {
    if a == [] {
      assert a + b == b;
    } else {
      assert (a + b)[1..] == a[1..] + b;
      FirstMatchAppend(a[1..], b, host, path);
    }
  }

  lemma FirstMatchOne(r: CaddyRoute, host: string, path: string)
    ensures FirstMatch([r], host, path) == if Matches(r, host, path) then Some(r.handler) else None
  {
    assert [r][1..] == [];
  }

  lemma AppAnswerAppend(before: seq<string>, k: string, table: Table, host: string, answer: Option<Handler>)
    requires (forall n :: n in before ==> n in table) && k in table
    requires AppAnswer(before, table, host, answer)
    ensures forall n :: n in before + [k] ==> n in table
    ensures AppAnswer(before + [k], table, host,
                      if answer == None && host in table[k].hosts then Some(Proxy(table[k].target)) else answer)
  {
    var order := before + [k];
    assert forall j :: 0 <= j < |before| ==> order[j] == before[j];
    assert order[|before|] == k;
    if answer.Some? {
      var i :| 0 <= i < |before| && host in table[before[i]].hosts && answer.value == Proxy(table[before[i]].target)
               && forall j :: 0 <= j < i ==> host !in table[before[j]].hosts;
      assert order[i] == before[i];
    }
  }

  lemma {:induction false} ProxyRoutesAnswer(order: seq<string>, table: Table, host: string, path: string)
    requires forall k :: k in order ==> k in table
    ensures AppAnswer(order, table, host, FirstMatch(ProxyRoutes(order, table), host, path))
  {
    if order != [] {
      var before, k := order[..|order| - 1], order[|order| - 1];
      assert forall n :: n in before ==> n in order;
      ProxyRoutesAnswer(before, table, host, path);
      var r := CaddyRoute(table[k].hosts, "", Proxy(table[k].target));
      FirstMatchAppend(ProxyRoutes(before, table), [r], host, path);
      FirstMatchOne(r, host, path);
      AppAnswerAppend(before, k, table, host, FirstMatch(ProxyRoutes(before, table), host, path));
      assert before + [k] == order;
    }
  }

  lemma {:induction false} RedirectRoutesAnswer(order: seq<string>, table: Table, flags: map<string, bool>,
                                                host: string, path: string)
    requires forall k :: k in order ==> k in table
    ensures FirstMatch(RedirectRoutes(order, table, flags), host, path) ==
            if exists k :: k in order && host in table[k].hosts
                           && table[k].deploymentID in flags && flags[table[k].deploymentID] == true
            then Some(RedirectToHTTPS) else None
  {
    if order != [] {
      var before, k := order[..|order| - 1], order[|order| - 1];
      assert order == before + [k];
      assert forall n :: n in before ==> n in order;
      RedirectRoutesAnswer(before, table, flags, host, path);
      var r := CaddyRoute(table[k].hosts, "", RedirectToHTTPS);
      if IsForced(flags, table[k]) {
        FirstMatchAppend(RedirectRoutes(before, table, flags), [r], host, path);
        FirstMatchOne(r, host, path);
      } else {
        assert RedirectRoutes(order, table, flags) == RedirectRoutes(before, table, flags);
      }
    }
  }

  lemma PlatformRoutesAnswer(p: Platform, host: string, path: string)
    ensures FirstMatch(PlatformRoutes(p), host, path) ==
            if host == p.host && host != ""
            then Some(Proxy(if "/api/" <= path then p.apiUpstream else p.dashboardUpstream)) else None
    ensures FirstMatch(PlatformHTTPSRedirect(p), host, path) ==
            if host == p.host && host != "" then Some(RedirectToHTTPS) else None
  {
    if p.host != "" {
      var api := CaddyRoute([p.host], "/api/", Proxy(p.apiUpstream));
      var dashboard := CaddyRoute([p.host], "", Proxy(p.dashboardUpstream));
      assert PlatformRoutes(p) == [api] + [dashboard];
      FirstMatchAppend([api], [dashboard], host, path);
      FirstMatchOne(api, host, path);
      FirstMatchOne(dashboard, host, path);
      FirstMatchOne(CaddyRoute([p.host], "", RedirectToHTTPS), host, path);
    }
  }

  lemma EvaluateOne(s: Server, port: string, host: string, path: string)
    ensures Evaluate([s], port, host, path) ==
            if s.listen == port then FirstMatch(s.routes, host, path) else None
  {
    assert [s][1..] == [];
  }

  lemma EvaluateTwo(s: Server, t: Server, port: string, host: string, path: string)
    ensures Evaluate([s, t], port, host, path) ==
            if s.listen == port then FirstMatch(s.routes, host, path)
            else if t.listen == port then FirstMatch(t.routes, host, path) else None
  {
    assert [s, t][1..] == [t];
    EvaluateOne(t, port, host, path);
  }

  lemma ProxySideAnswer(p: Platform, table: Table, order: seq<string>, host: string, path: string)
    requires IsOrder(order, table)
    ensures PlatformOrApp(p, order, table, host, path,
                          FirstMatch(PlatformRoutes(p) + ProxyRoutes(order, table), host, path))
  {
    PlatformRoutesAnswer(p, host, path);
    ProxyRoutesAnswer(order, table, host, path);
    FirstMatchAppend(PlatformRoutes(p), ProxyRoutes(order, table), host, path);
  }

  lemma HTTPPortAnswer(p: Platform, table: Table, flags: map<string, bool>, order: seq<string>, order': seq<string>,
                       host: string, path: string)
    requires IsOrder(order, table) && IsOrder(order', table)
    ensures var routes := PlatformHTTPSRedirect(p) +
                          (RedirectRoutes(order', table, flags) + (PlatformRoutes(p) + ProxyRoutes(order, table)));
            var answer := FirstMatch(routes, host, path);
            if (host == p.host && host != "") || ForcesHost(table, flags, host) then answer == Some(RedirectToHTTPS)
            else AppAnswer(order, table, host, answer)
  {
    var proxy := PlatformRoutes(p) + ProxyRoutes(order, table);
    var redirects := RedirectRoutes(order', table, flags);
    PlatformRoutesAnswer(p, host, path);
    RedirectRoutesAnswer(order', table, flags, host, path);
    ProxySideAnswer(p, table, order, host, path);
    FirstMatchAppend(redirects, proxy, host, path);
    FirstMatchAppend(PlatformHTTPSRedirect(p), redirects + proxy, host, path);
  }

  /** The compiled configuration routes every request as promised, whatever the iteration orders. */
  lemma ConfigRoutesAsPromised(config: Config, p: Platform, table: Table, flags: map<string, bool>,
                               order: seq<string>, order': seq<string>, port: string, host: string, path: string)
    requires IsOrder(order, table) && IsOrder(order', table)
    requires config.enableTLS ==> config.httpPort != config.httpsPort
    ensures Promised(config, p, table, ForcesHost(table, flags, host), order, port, host, path,
                     Evaluate(Payload(config, p, table, flags, order, order'), port, host, path))
  {
    var servers := Payload(config, p, table, flags, order, order');
    ProxySideAnswer(p, table, order, host, path);
    HTTPPortAnswer(p, table, flags, order, order', host, path);
    if config.enableTLS {
      EvaluateTwo(servers[0], servers[1], port, host, path);
    } else {
      EvaluateOne(servers[0], port, host, path);
    }
  }

  // ----- when the iteration order matters -----

  /** All containers that claim the host have the same target. */
  ghost predicate Agreed(table: Table, host: string) {
    forall k, l :: k in table && l in table && host in table[k].hosts && host in table[l].hosts ==>
      table[k].target == table[l].target
  }

  /** The request is answered by an app container, not by the platform or a redirect. */
  predicate LeftToApps(config: Config, p: Platform, table: Table, flags: map<string, bool>, port: string, host: string) {
    && !(host == p.host && host != "")
    && if config.enableTLS then port == config.httpsPort || (port == config.httpPort && !ForcesHost(table, flags, host))
       else port == config.httpPort
  }

  ghost predicate SameForEveryOrder(config: Config, p: Platform, table: Table, flags: map<string, bool>,
                                    port: string, host: string, path: string) {
    forall a, a', b, b' | IsOrder(a, table) && IsOrder(a', table) && IsOrder(b, table) && IsOrder(b', table) ::
      Evaluate(Payload(config, p, table, flags, a, a'), port, host, path) ==
      Evaluate(Payload(config, p, table, flags, b, b'), port, host, path)
  }

  lemma OrderPrepend(table: Table, k: string, rest: seq<string>)
    requires k in table && IsOrder(rest, table - {k})
    ensures IsOrder([k] + rest, table)
  {
    var order := [k] + rest;
    forall i, j | 0 <= i < j < |order|
      ensures order[i] != order[j]
    {
      assert order[j] == rest[j - 1];
      if i == 0 {
        assert order[j] in table - {k};
      } else {
        assert order[i] == rest[i - 1];
      }
    }
  }

  lemma SomeOrder(table: Table) returns (order: seq<string>)
    ensures IsOrder(order, table)
    decreases |table|
  {
    if table == map[] {
      order := [];
    } else {
      var k :| k in table;
      assert (table - {k}).Keys == table.Keys - {k};
      order := SomeOrder(table - {k});
      OrderPrepend(table, k, order);
      order := [k] + order;
    }
  }

  lemma OrderStartingWith(table: Table, k: string) returns (order: seq<string>)
    requires k in table
    ensures IsOrder(order, table) && order[0] == k
  {
    order := SomeOrder(table - {k});
    OrderPrepend(table, k, order);
    order := [k] + order;
  }

  /** Two answers for agreeing containers are equal. */
  lemma AgreedAnswersAreEqual(table: Table, host: string, a: seq<string>, b: seq<string>,
                              x: Option<Handler>, y: Option<Handler>)
    requires Agreed(table, host) && IsOrder(a, table) && IsOrder(b, table)
    requires AppAnswer(a, table, host, x) && AppAnswer(b, table, host, y)
    ensures x == y
  {
    if x.Some? {
      var i :| 0 <= i < |a| && host in table[a[i]].hosts && x.value == Proxy(table[a[i]].target);
      assert a[i] in b;
    }
    if y.Some? {
      var i :| 0 <= i < |b| && host in table[b[i]].hosts && y.value == Proxy(table[b[i]].target);
      assert b[i] in a;
    }
  }

  /** A route list that starts with a claimant of the host answers with it. */
  lemma FirstClaimantWins(table: Table, host: string, order: seq<string>, x: Option<Handler>)
    requires IsOrder(order, table) && AppAnswer(order, table, host, x)
    requires order != [] && host in table[order[0]].hosts
    ensures x == Some(Proxy(table[order[0]].target))
  {
  }

  /**
    Go visits a map in random order.  For a given request the answer is the same for every order
    exactly when no app decides it or all apps claiming the host share a target.
    */
  lemma OrderMattersIff(config: Config, p: Platform, table: Table, flags: map<string, bool>,
                        port: string, host: string, path: string)
    requires config.enableTLS ==> config.httpPort != config.httpsPort
    ensures SameForEveryOrder(config, p, table, flags, port, host, path) <==>
            !LeftToApps(config, p, table, flags, port, host) || Agreed(table, host)
  {
    if !LeftToApps(config, p, table, flags, port, host) || Agreed(table, host) {
      forall a, a', b, b' | IsOrder(a, table) && IsOrder(a', table) && IsOrder(b, table) && IsOrder(b', table)
        ensures Evaluate(Payload(config, p, table, flags, a, a'), port, host, path) ==
                Evaluate(Payload(config, p, table, flags, b, b'), port, host, path)
      {
        ConfigRoutesAsPromised(config, p, table, flags, a, a', port, host, path);
        ConfigRoutesAsPromised(config, p, table, flags, b, b', port, host, path);
        var x := Evaluate(Payload(config, p, table, flags, a, a'), port, host, path);
        var y := Evaluate(Payload(config, p, table, flags, b, b'), port, host, path);
        if LeftToApps(config, p, table, flags, port, host) {
          AgreedAnswersAreEqual(table, host, a, b, x, y);
        }
      }
    } else {
      var k, l :| k in table && l in table && host in table[k].hosts && host in table[l].hosts
                  && table[k].target != table[l].target;
      var a := OrderStartingWith(table, k);
      var b := OrderStartingWith(table, l);
      ConfigRoutesAsPromised(config, p, table, flags, a, a, port, host, path);
      ConfigRoutesAsPromised(config, p, table, flags, b, b, port, host, path);
      var x := Evaluate(Payload(config, p, table, flags, a, a), port, host, path);
      var y := Evaluate(Payload(config, p, table, flags, b, b), port, host, path);
      FirstClaimantWins(table, host, a, x);
      FirstClaimantWins(table, host, b, y);
      assert x != y;
    }
  }

  ghost predicate HostsDisjoint(table: Table) {
    forall k, l, h :: k in table && l in table && k != l && h in table[k].hosts ==> h !in table[l].hosts
  }

  /** With pairwise disjoint app hosts no request ever depends on the order. */
  lemma DisjointHostsNeedNoOrder(config: Config, p: Platform, table: Table, flags: map<string, bool>,
                                 port: string, host: string, path: string)
    requires HostsDisjoint(table)
    requires config.enableTLS ==> config.httpPort != config.httpsPort
    ensures SameForEveryOrder(config, p, table, flags, port, host, path)
  {
    OrderMattersIff(config, p, table, flags, port, host, path);
  }

  /** Under TLS a request on the HTTP port is redirected exactly if it is the dashboard's or its host is forced. */
  lemma RedirectedIff(config: Config, p: Platform, table: Table, flags: map<string, bool>,
                      order: seq<string>, order': seq<string>, host: string, path: string)
    requires IsOrder(order, table) && IsOrder(order', table)
    requires config.enableTLS && config.httpPort != config.httpsPort
    ensures Evaluate(Payload(config, p, table, flags, order, order'), config.httpPort, host, path) == Some(RedirectToHTTPS) <==>
            || (host == p.host && host != "")
            || exists k :: k in table && host in table[k].hosts
                           && table[k].deploymentID in flags && flags[table[k].deploymentID] == true
  {
    ConfigRoutesAsPromised(config, p, table, flags, order, order', config.httpPort, host, path);
  }
}
