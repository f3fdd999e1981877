/**
  RouteManager of cmd/api/caddy.go: the routing table, its compilation into Caddy's payload, and the
  cheap drift test the reconciler uses instead of comparing tables.
  */
module RouteManagers {
  import opened Shared
  import opened CaddyRoutes

  datatype ContainerInfo = ContainerInfo(
    containerName: string,
    internalIP: string,
    internalPort: string,
    deploymentID: string)

  /** Containers without a name, address or port get no route. */
  predicate Eligible(c: ContainerInfo) {
    c.containerName != "" && c.internalIP != "" && c.internalPort != ""
  }

  function Target(c: ContainerInfo): string {
    c.internalIP + ":" + c.internalPort
  }

  /** "<name>.<apps domain>", then the deployment's verified domains if they can be loaded. */
  function BuildHosts(c: ContainerInfo, appsDomain: string, verified: map<string, seq<string>>): seq<string> {
    [c.containerName + "." + appsDomain] +
    (if c.deploymentID != "" && c.deploymentID in verified then verified[c.deploymentID] else [])
  }

  function RouteFor(prev: Table, c: ContainerInfo, appsDomain: string, verified: map<string, seq<string>>, now: int): Route {
    Route(c.containerName, c.deploymentID, BuildHosts(c, appsDomain, verified), Target(c),
          if c.containerName in prev then prev[c.containerName].createdAt else now, now)
  }

  /** The table ReplaceRoutes builds: one route a name, the last eligible container of that name. */
  function Rebuilt(prev: Table, cs: seq<ContainerInfo>, appsDomain: string, verified: map<string, seq<string>>,
                   now: int): Table {
    if cs == [] then map[]
    else
      var before := Rebuilt(prev, cs[..|cs| - 1], appsDomain, verified, now);
      var c := cs[|cs| - 1];
      if Eligible(c) then before[c.containerName := RouteFor(prev, c, appsDomain, verified, now)] else before
  }

  // ----- what the drift test is meant to compare -----

  function Targets(table: Table): map<string, string> {
    map k | k in table :: table[k].target
  }

  /** The targets the running containers call for. */
  function Wanted(cs: seq<ContainerInfo>): map<string, string> {
    if cs == [] then map[]
    else
      var before := Wanted(cs[..|cs| - 1]);
      var c := cs[|cs| - 1];
      if Eligible(c) then before[c.containerName := Target(c)] else before
  }

  function CountEligible(cs: seq<ContainerInfo>): nat {
    if cs == [] then 0
    else CountEligible(cs[..|cs| - 1]) + if Eligible(cs[|cs| - 1]) then 1 else 0
  }

  ghost predicate UniqueNames(cs: seq<ContainerInfo>) {
    forall i, j :: 0 <= i < j < |cs| && Eligible(cs[i]) && Eligible(cs[j]) ==>
      cs[i].containerName != cs[j].containerName
  }

  predicate HasRoute(table: Table, c: ContainerInfo) {
    c.containerName in table && table[c.containerName].target == Target(c)
  }

  /** The test of routesDrifted, before it asks Caddy: a route that differs, or another number of routes. */
  predicate LooksDrifted(table: Table, cs: seq<ContainerInfo>) {
    || (exists i :: 0 <= i < |cs| && Eligible(cs[i]) && !HasRoute(table, cs[i]))
    || CountEligible(cs) != |table|
  }

  class RouteManager {
    const config: Config
    const platform: Platform
    const appsDomain: string
    var routes: Table

    constructor (config: Config, platform: Platform, appsDomain: string)
      ensures this.config == config && this.platform == platform && this.appsDomain == appsDomain
      ensures routes == map[]
    {
      this.config, this.platform, this.appsDomain := config, platform, appsDomain;
      routes := map[];
    }

    /** The table is visited in some order, which differs from call to call. */
    method BuildRouteConfig() returns (out: seq<CaddyRoute>)
      ensures exists order :: IsOrder(order, routes) && out == ProxyRoutes(order, routes)
    {
      out := [];
      ghost var order: seq<string> := [];
      var left := routes.Keys;
      while left != {}
        invariant left <= routes.Keys && VisitedSoFar(order, routes, left)
        invariant out == ProxyRoutes(order, routes)
        decreases left
      {
        var k :| k in left;
        out := out + [CaddyRoute(routes[k].hosts, "", Proxy(routes[k].target))];
        VisitOne(order, routes, left, k);
        assert (order + [k])[..|order|] == order;
        order := order + [k];
        left := left - {k};
      }
    }

    /** The store answers for the IDs it is asked for; None when it cannot answer. */
    method LoadForceHTTPSFlags(lookup: Option<map<string, bool>>) returns (flags: map<string, bool>)
      ensures flags == LoadedFlags(routes, lookup)
    {
      flags := map[];
      match lookup
      case None =>
      case Some(all) =>
        var ids: set<string> := {};
        var left := routes.Keys;
        while left != {}
          invariant left <= routes.Keys
          invariant ids == set k | k in routes && k !in left && routes[k].deploymentID != "" :: routes[k].deploymentID
          decreases left
        {
          var k :| k in left;
          if routes[k].deploymentID != "" && routes[k].deploymentID !in ids {
            ids := ids + {routes[k].deploymentID};
          }
          left := left - {k};
        }
        if ids != {} {
          flags := map d | d in ids && d in all :: all[d];
        }
        assert ids == DeploymentIDs(routes);
    }

    method BuildHTTPPortRoutes(lookup: Option<map<string, bool>>, proxyRoutes: seq<CaddyRoute>)
      returns (out: seq<CaddyRoute>)
      ensures exists order :: IsOrder(order, routes) &&
                out == RedirectRoutes(order, routes, LoadedFlags(routes, lookup)) + proxyRoutes
      ensures forall host, path ::
                FirstMatch(out, host, path) ==
                if StoreForcesHost(routes, lookup, host) then Some(RedirectToHTTPS) else FirstMatch(proxyRoutes, host, path)
    {
      var flags := LoadForceHTTPSFlags(lookup);
      ghost var order: seq<string> := [];
      if |flags| == 0 {
        order := SomeOrder(routes);
        NoFlagsNoRedirects(order, routes);
        assert [] + proxyRoutes == proxyRoutes;
        RedirectsComeFirst(order, routes, lookup, proxyRoutes);
        return proxyRoutes;
      }
      var redirects := [];
      var left := routes.Keys;
      while left != {}
        invariant left <= routes.Keys && VisitedSoFar(order, routes, left)
        invariant redirects == RedirectRoutes(order, routes, flags)
        decreases left
      {
        var k :| k in left;
        VisitOne(order, routes, left, k);
        assert (order + [k])[..|order|] == order;
        order := order + [k];
        left := left - {k};
        if !(routes[k].deploymentID in flags && flags[routes[k].deploymentID]) {
          continue;
        }
        redirects := redirects + [CaddyRoute(routes[k].hosts, "", RedirectToHTTPS)];
      }
      RedirectsComeFirst(order, routes, lookup, proxyRoutes);
      out := redirects + proxyRoutes;
    }

    /** What is posted to Caddy's /load, and that it routes every request as promised. */
    method SyncPayload(lookup: Option<map<string, bool>>) returns (servers: seq<Server>)
      requires config.enableTLS ==> config.httpPort != config.httpsPort
      ensures exists order :: IsOrder(order, routes) &&
                forall port, host, path ::
                  Promised(config, platform, routes, StoreForcesHost(routes, lookup, host), order, port, host, path,
                           Evaluate(servers, port, host, path))
      ensures config.enableTLS ==>
                forall host, path ::
                  Evaluate(servers, config.httpPort, host, path) == Some(RedirectToHTTPS) <==>
                  (host == platform.host && host != "") || StoreForcesHost(routes, lookup, host)
    {
      ghost var flags := LoadedFlags(routes, lookup);
      var routeConfig := BuildRouteConfig();
      ghost var order :| IsOrder(order, routes) && routeConfig == ProxyRoutes(order, routes);
      routeConfig := PlatformRoutes(platform) + routeConfig;
      ghost var order' := order;
      if config.enableTLS {
        var onHTTP := BuildHTTPPortRoutes(lookup, routeConfig);
        order' :| IsOrder(order', routes) && onHTTP == RedirectRoutes(order', routes, flags) + routeConfig;
        servers := [Server(config.httpsPort, routeConfig),
                    Server(config.httpPort, PlatformHTTPSRedirect(platform) + onHTTP)];
      } else {
        servers := [Server(config.httpPort, routeConfig)];
      }
      assert servers == Payload(config, platform, routes, flags, order, order');
      forall port, host, path
        ensures Promised(config, platform, routes, StoreForcesHost(routes, lookup, host), order, port, host, path,
                         Evaluate(servers, port, host, path))
      {
        LoadedFlagsForce(routes, lookup, host);
        ConfigRoutesAsPromised(config, platform, routes, flags, order, order', port, host, path);
      }
    }

    /** The table is replaced before the push, whether or not the push succeeds. */
    method ReplaceRoutes(containers: seq<ContainerInfo>, verified: map<string, seq<string>>, now: int)
      modifies this
      ensures routes == Rebuilt(old(routes), containers, appsDomain, verified, now)
    {
      var rebuilt: Table := map[];
      for i := 0 to |containers|
        invariant routes == old(routes)
        invariant rebuilt == Rebuilt(old(routes), containers[..i], appsDomain, verified, now)
      {
        var c := containers[i];
        assert containers[..i + 1][..i] == containers[..i];
        if c.containerName == "" || c.internalIP == "" || c.internalPort == "" {
          continue;
        }
        var createdAt := now;
        if c.containerName in routes {
          createdAt := routes[c.containerName].createdAt;
        }
        rebuilt := rebuilt[c.containerName :=
          Route(c.containerName, c.deploymentID, BuildHosts(c, appsDomain, verified), Target(c), createdAt, now)];
      }
      assert containers[..|containers|] == containers;
      routes := rebuilt;
    }

    /** `caddyHolds` is whether Caddy still has our server; None when it cannot be asked. */
    method RoutesDrifted(containers: seq<ContainerInfo>, caddyHolds: Option<bool>) returns (drifted: bool)
      ensures drifted <==> LooksDrifted(routes, containers) || caddyHolds == Some(false)
    {
      var want := 0;
      for i := 0 to |containers|
        invariant want == CountEligible(containers[..i])
        invariant forall j :: 0 <= j < i && Eligible(containers[j]) ==> HasRoute(routes, containers[j])
      {
        var c := containers[i];
        assert containers[..i + 1][..i] == containers[..i];
        if c.containerName == "" || c.internalIP == "" || c.internalPort == "" {
          continue;
        }
        want := want + 1;
        if !(c.containerName in routes && routes[c.containerName].target == c.internalIP + ":" + c.internalPort) {
          return true;
        }
      }
      assert containers[..|containers|] == containers;
      if want != |routes| {
        return true;
      }
      drifted := caddyHolds == Some(false);
    }
  }

  /** Redirects of the forced hosts answer first, everything else is left to the proxy routes. */
  lemma RedirectsComeFirst(order: seq<string>, table: Table, lookup: Option<map<string, bool>>, proxyRoutes: seq<CaddyRoute>)
    requires IsOrder(order, table)
    ensures forall host, path ::
              FirstMatch(RedirectRoutes(order, table, LoadedFlags(table, lookup)) + proxyRoutes, host, path) ==
              if StoreForcesHost(table, lookup, host) then Some(RedirectToHTTPS) else FirstMatch(proxyRoutes, host, path)
  {
    var flags := LoadedFlags(table, lookup);
    forall host, path
      ensures FirstMatch(RedirectRoutes(order, table, flags) + proxyRoutes, host, path) ==
              if StoreForcesHost(table, lookup, host) then Some(RedirectToHTTPS) else FirstMatch(proxyRoutes, host, path)
    {
      RedirectRoutesAnswer(order, table, flags, host, path);
      LoadedFlagsForce(table, lookup, host);
      FirstMatchAppend(RedirectRoutes(order, table, flags), proxyRoutes, host, path);
    }
  }

  // ----- iteration -----

  ghost predicate VisitedSoFar(order: seq<string>, table: Table, left: set<string>) {
    && (forall i, j :: 0 <= i < j < |order| ==> order[i] != order[j])
    && (forall k :: k in order <==> k in table && k !in left)
  }

  lemma VisitOne(order: seq<string>, table: Table, left: set<string>, k: string)
    requires VisitedSoFar(order, table, left) && k in left && left <= table.Keys
    ensures VisitedSoFar(order + [k], table, left - {k})
  {
  }

  lemma {:induction false} NoFlagsNoRedirects(order: seq<string>, table: Table)
    requires forall k :: k in order ==> k in table
    ensures RedirectRoutes(order, table, map[]) == []
  {
    if order != [] {
      NoFlagsNoRedirects(order[..|order| - 1], table);
    }
  }

  // ----- how good the drift test is -----

  predicate Names(cs: seq<ContainerInfo>, k: string) {
    exists i :: 0 <= i < |cs| && Eligible(cs[i]) && cs[i].containerName == k
  }

  lemma {:induction false} WantedKeys(cs: seq<ContainerInfo>, k: string)
    ensures k in Wanted(cs) <==> Names(cs, k)
  {
    if cs != [] {
      var before, c := cs[..|cs| - 1], cs[|cs| - 1];
      WantedKeys(before, k);
      assert forall i :: 0 <= i < |before| ==> before[i] == cs[i];
      if Names(before, k) {
        var i :| 0 <= i < |before| && Eligible(before[i]) && before[i].containerName == k;
        assert cs[i] == before[i];
      }
    }
  }

  /** A name that occurs twice is counted twice but wanted once. */
  lemma {:induction false} WantedSize(cs: seq<ContainerInfo>)
    ensures |Wanted(cs)| <= CountEligible(cs)
    ensures UniqueNames(cs) <==> |Wanted(cs)| == CountEligible(cs)
  {
    if cs != [] {
      var before, c := cs[..|cs| - 1], cs[|cs| - 1];
      WantedSize(before);
      assert cs == before + [c];
      assert UniqueNames(cs) ==> UniqueNames(before) by {
        assert forall i :: 0 <= i < |before| ==> before[i] == cs[i];
      }
      WantedKeys(before, c.containerName);
      if Eligible(c) {
        assert Wanted(cs).Keys == Wanted(before).Keys + {c.containerName};
        if Names(before, c.containerName) {
          assert Wanted(before).Keys + {c.containerName} == Wanted(before).Keys;
          var i :| 0 <= i < |before| && Eligible(before[i]) && before[i].containerName == c.containerName;
          assert cs[i] == before[i] && !UniqueNames(cs);
        } else if UniqueNames(before) {
          UniqueAppend(before, c);
        }
      } else if UniqueNames(before) {
        UniqueAppend(before, c);
      }
    }
  }

  lemma UniqueAppend(before: seq<ContainerInfo>, c: ContainerInfo)
    requires UniqueNames(before)
    requires Eligible(c) ==> forall i :: 0 <= i < |before| && Eligible(before[i]) ==> before[i].containerName != c.containerName
    ensures UniqueNames(before + [c])
  {
  }

  /** Two eligible containers claim one name for different targets. */
  ghost predicate Conflict(cs: seq<ContainerInfo>) {
    exists i, j :: 0 <= i < j < |cs| && Eligible(cs[i]) && Eligible(cs[j])
                   && cs[i].containerName == cs[j].containerName && Target(cs[i]) != Target(cs[j])
  }

  /** Without conflicts every eligible container is of one mind with the one that decides its name. */
  lemma {:induction false} WantedAgrees(cs: seq<ContainerInfo>, i: nat)
    requires !Conflict(cs) && i < |cs| && Eligible(cs[i])
    ensures cs[i].containerName in Wanted(cs) && Wanted(cs)[cs[i].containerName] == Target(cs[i])
  {
    if i < |cs| - 1 {
      var before := cs[..|cs| - 1];
      assert forall j :: 0 <= j < |before| ==> before[j] == cs[j];
      WantedAgrees(before, i);
    }
  }

  lemma {:induction false} RebuiltTargets(prev: Table, cs: seq<ContainerInfo>, appsDomain: string,
                                          verified: map<string, seq<string>>, now: int)
    ensures Targets(Rebuilt(prev, cs, appsDomain, verified, now)) == Wanted(cs)
  {
    if cs != [] {
      RebuiltTargets(prev, cs[..|cs| - 1], appsDomain, verified, now);
    }
  }

  /** A rebuilt table keeps the creation time of every route that survives, and only those. */
  lemma {:induction false} RebuiltKeepsCreation(prev: Table, cs: seq<ContainerInfo>, appsDomain: string,
                                                verified: map<string, seq<string>>, now: int, k: string)
    requires k in Rebuilt(prev, cs, appsDomain, verified, now)
    ensures var r := Rebuilt(prev, cs, appsDomain, verified, now)[k];
            && r.containerName == k && r.updatedAt == now
            && r.createdAt == (if k in prev then prev[k].createdAt else now)
            && r.hosts != [] && r.hosts[0] == k + "." + appsDomain
  {
    var c := cs[|cs| - 1];
    if !(Eligible(c) && c.containerName == k) {
      RebuiltKeepsCreation(prev, cs[..|cs| - 1], appsDomain, verified, now, k);
    }
  }

  /** The last eligible container of a name. */
  ghost predicate Decides(cs: seq<ContainerInfo>, i: int) {
    && 0 <= i < |cs| && cs[i].containerName != "" && cs[i].internalIP != "" && cs[i].internalPort != ""
    && forall j :: i < j < |cs| && cs[j].containerName == cs[i].containerName ==> cs[j].internalIP == "" || cs[j].internalPort == ""
  }

  /**
    The route of a name is made from the last container of that name that has an address and a port:
    its target, its deployment, its default host and all the deployment's verified domains.
    */
  lemma {:induction false} RebuiltRoute(prev: Table, cs: seq<ContainerInfo>, appsDomain: string,
                                        verified: map<string, seq<string>>, now: int, i: nat)
    requires Decides(cs, i)
    ensures var c, table := cs[i], Rebuilt(prev, cs, appsDomain, verified, now);
            && c.containerName in table
            && table[c.containerName].target == c.internalIP + ":" + c.internalPort
            && table[c.containerName].deploymentID == c.deploymentID
            && table[c.containerName].hosts ==
                 [c.containerName + "." + appsDomain] +
                 (if c.deploymentID != "" && c.deploymentID in verified then verified[c.deploymentID] else [])
  {
    if i < |cs| - 1 {
      assert Decides(cs[..|cs| - 1], i);
      RebuiltRoute(prev, cs[..|cs| - 1], appsDomain, verified, now, i);
    }
  }

  /** Only such names have routes. */
  lemma {:induction false} RebuiltNames(prev: Table, cs: seq<ContainerInfo>, appsDomain: string,
                                        verified: map<string, seq<string>>, now: int, k: string)
    ensures k in Rebuilt(prev, cs, appsDomain, verified, now) <==> exists i :: Decides(cs, i) && cs[i].containerName == k
  {
    if cs != [] {
      var n := |cs| - 1;
      var before, c := cs[..n], cs[n];
      RebuiltNames(prev, before, appsDomain, verified, now, k);
      assert forall i :: 0 <= i < n ==> before[i] == cs[i];
      if Eligible(c) && c.containerName == k {
        assert Decides(cs, n);
      } else {
        forall i
          ensures Decides(before, i) && before[i].containerName == k <==> Decides(cs, i) && cs[i].containerName == k
        {
        }
      }
    }
  }

  lemma SubmapOfEqualSize(a: map<string, string>, b: map<string, string>)
    requires (forall k :: k in a ==> k in b && a[k] == b[k]) && |a| == |b|
    ensures a == b
  {
    assert a.Keys <= b.Keys;
    if a.Keys != b.Keys {
      var k :| k in b.Keys && k !in a.Keys;
      assert a.Keys <= b.Keys - {k};
      SubsetSize(a.Keys, b.Keys - {k});
    }
  }

  lemma {:induction false} SubsetSize(a: set<string>, b: set<string>)
    requires a <= b
    ensures |a| <= |b|
  {
    if a != {} {
      var x :| x in a;
      SubsetSize(a - {x}, b - {x});
    }
  }

  lemma TargetsSize(table: Table)
    ensures |Targets(table)| == |table|
  {
    assert Targets(table).Keys == table.Keys;
  }

  /**
    With unique container names, "every container has its route, and the counts match" is the same
    as comparing the two name-to-target maps.
    */
  lemma DriftTestIsExact(table: Table, cs: seq<ContainerInfo>)
    requires UniqueNames(cs)
    ensures LooksDrifted(table, cs) <==> Targets(table) != Wanted(cs)
  {
    WantedSize(cs);
    TargetsSize(table);
    forall i | 0 <= i < |cs| && Eligible(cs[i])
      ensures cs[i].containerName in Wanted(cs) && Wanted(cs)[cs[i].containerName] == Target(cs[i])
    {
      WantedAgrees(cs, i);
    }
    if !LooksDrifted(table, cs) {
      forall k | k in Wanted(cs)
        ensures k in Targets(table) && Targets(table)[k] == Wanted(cs)[k]
      {
        WantedKeys(cs, k);
        var i :| 0 <= i < |cs| && Eligible(cs[i]) && cs[i].containerName == k;
        assert HasRoute(table, cs[i]);
      }
      SubmapOfEqualSize(Wanted(cs), Targets(table));
    } else if exists i :: 0 <= i < |cs| && Eligible(cs[i]) && !HasRoute(table, cs[i]) {
      var i :| 0 <= i < |cs| && Eligible(cs[i]) && !HasRoute(table, cs[i]);
      assert cs[i].containerName in Wanted(cs) && Wanted(cs)[cs[i].containerName] == Target(cs[i]);
    }
  }

  /**
    Right after ReplaceRoutes the test is quiet exactly when no two eligible containers share a name.
    Two that do would be pushed again on every tick.
    */
  lemma QuietAfterReplaceIff(prev: Table, cs: seq<ContainerInfo>, appsDomain: string,
                             verified: map<string, seq<string>>, now: int)
    ensures !LooksDrifted(Rebuilt(prev, cs, appsDomain, verified, now), cs) <==> UniqueNames(cs)
  {
    var table := Rebuilt(prev, cs, appsDomain, verified, now);
    RebuiltTargets(prev, cs, appsDomain, verified, now);
    WantedSize(cs);
    TargetsSize(table);
    if UniqueNames(cs) {
      DriftTestIsExact(table, cs);
    }
  }

  // ----- when a quiet test hides something -----

  /** No table is stale, in either direction, while the test finds nothing. */
  ghost predicate QuietMeansInStep(cs: seq<ContainerInfo>) {
    forall table: Table :: !LooksDrifted(table, cs) ==> Targets(table) == Wanted(cs)
  }

  /** No table has both targets of a conflict, so the test is never quiet. */
  lemma ConflictIsNeverQuiet(table: Table, cs: seq<ContainerInfo>)
    requires Conflict(cs)
    ensures LooksDrifted(table, cs)
  {
    var i, j :| 0 <= i < j < |cs| && Eligible(cs[i]) && Eligible(cs[j])
                && cs[i].containerName == cs[j].containerName && Target(cs[i]) != Target(cs[j]);
    assert !HasRoute(table, cs[i]) || !HasRoute(table, cs[j]);
  }

  lemma {:induction false} LongerThanAll(names: set<string>) returns (n: nat)
    ensures forall k :: k in names ==> |k| < n
  {
    n := 0;
    if names != {} {
      var k :| k in names;
      n := LongerThanAll(names - {k});
      if n <= |k| {
        n := |k| + 1;
      }
    }
  }

  /** A table can be filled up with stale routes to any size. */
  lemma {:induction false} Padded(table: Table, size: nat) returns (padded: Table)
    requires |table| <= size
    ensures |padded| == size && forall k :: k in table ==> k in padded && padded[k] == table[k]
    decreases size - |table|
  {
    padded := table;
    if |table| < size {
      var n := LongerThanAll(table.Keys);
      var name := seq(n, _ => 'x');
      var more := table[name := Route(name, "", [], "", 0, 0)];
      assert more.Keys == table.Keys + {name};
      padded := Padded(more, size);
    }
  }

  /** The containers' own table, filled up to the number of containers, passes the test. */
  lemma QuietButStale(cs: seq<ContainerInfo>) returns (table: Table)
    requires !UniqueNames(cs) && !Conflict(cs)
    ensures !LooksDrifted(table, cs) && Targets(table) != Wanted(cs)
  {
    var own := Rebuilt(map[], cs, "", map[], 0);
    RebuiltTargets(map[], cs, "", map[], 0);
    WantedSize(cs);
    TargetsSize(own);
    table := Padded(own, CountEligible(cs));
    forall i | 0 <= i < |cs| && Eligible(cs[i])
      ensures HasRoute(table, cs[i])
    {
      WantedAgrees(cs, i);
      assert cs[i].containerName in Targets(own);
    }
    TargetsSize(table);
  }

  /**
    A quiet test means that the table is what the containers call for, if and only if no two eligible
    containers share a name, or two that do disagree about the target so that the test is never quiet.
    */
  lemma QuietMeansInStepIff(cs: seq<ContainerInfo>)
    ensures QuietMeansInStep(cs) <==> UniqueNames(cs) || Conflict(cs)
  {
    if UniqueNames(cs) {
      forall table: Table | !LooksDrifted(table, cs)
        ensures Targets(table) == Wanted(cs)
      {
        DriftTestIsExact(table, cs);
      }
    } else if Conflict(cs) {
      forall table: Table
        ensures LooksDrifted(table, cs)
      {
        ConflictIsNeverQuiet(table, cs);
      }
    } else {
      var table := QuietButStale(cs);
    }
  }

  /** The hosts of every route, which the test never looks at. */
  function Hosts(table: Table): map<string, seq<string>> {
    map k | k in table :: table[k].hosts
  }

  /** A quiet test means that a rebuild would not change the hosts either. */
  ghost predicate QuietMeansSameHosts(cs: seq<ContainerInfo>, appsDomain: string, verified: map<string, seq<string>>, now: int) {
    forall table: Table :: !LooksDrifted(table, cs) ==>
      Hosts(table) == Hosts(Rebuilt(table, cs, appsDomain, verified, now))
  }

  /** The containers' own table with no hosts at all, filled up to the number of containers. */
  lemma QuietWithoutHosts(cs: seq<ContainerInfo>, appsDomain: string, verified: map<string, seq<string>>, now: int)
    returns (table: Table)
    requires CountEligible(cs) > 0 && !Conflict(cs)
    ensures !LooksDrifted(table, cs) && Hosts(table) != Hosts(Rebuilt(table, cs, appsDomain, verified, now))
  {
    var own := Rebuilt(map[], cs, "", map[], 0);
    RebuiltTargets(map[], cs, "", map[], 0);
    WantedSize(cs);
    TargetsSize(own);
    var bare: Table := map k | k in own :: own[k].(hosts := []);
    assert bare.Keys == own.Keys;
    table := Padded(bare, CountEligible(cs));
    forall i | 0 <= i < |cs| && Eligible(cs[i])
      ensures HasRoute(table, cs[i])
    {
      WantedAgrees(cs, i);
      assert cs[i].containerName in Targets(own);
    }
    var i := SomeEligible(cs);
    var k := cs[i].containerName;
    WantedAgrees(cs, i);
    RebuiltTargets(table, cs, appsDomain, verified, now);
    assert k in Targets(Rebuilt(table, cs, appsDomain, verified, now)) && k in Targets(own);
    RebuiltKeepsCreation(table, cs, appsDomain, verified, now, k);
    assert Hosts(table)[k] == [];
  }

  lemma {:induction false} SomeEligible(cs: seq<ContainerInfo>) returns (i: nat)
    requires CountEligible(cs) > 0
    ensures i < |cs| && Eligible(cs[i])
  {
    i := |cs| - 1;
    if !Eligible(cs[i]) {
      i := SomeEligible(cs[..i]);
    }
  }

  lemma {:induction false} NoneEligible(prev: Table, cs: seq<ContainerInfo>, appsDomain: string,
                                        verified: map<string, seq<string>>, now: int)
    requires CountEligible(cs) == 0
    ensures Rebuilt(prev, cs, appsDomain, verified, now) == map[]
  {
    if cs != [] {
      NoneEligible(prev, cs[..|cs| - 1], appsDomain, verified, now);
    }
  }

  /**
    A quiet test says nothing about hosts, such as a domain verified since the last rebuild, unless it
    is trivial: no container is eligible, or a conflict keeps the test from ever being quiet.
    */
  lemma QuietMeansSameHostsIff(cs: seq<ContainerInfo>, appsDomain: string, verified: map<string, seq<string>>, now: int)
    ensures QuietMeansSameHosts(cs, appsDomain, verified, now) <==> CountEligible(cs) == 0 || Conflict(cs)
  {
    if CountEligible(cs) == 0 {
      forall table: Table | !LooksDrifted(table, cs)
        ensures Hosts(table) == Hosts(Rebuilt(table, cs, appsDomain, verified, now))
      {
        NoneEligible(table, cs, appsDomain, verified, now);
        assert table == map[];
      }
    } else if Conflict(cs) {
      forall table: Table
        ensures LooksDrifted(table, cs)
      {
        ConflictIsNeverQuiet(table, cs);
      }
    } else {
      var table := QuietWithoutHosts(cs, appsDomain, verified, now);
    }
  }

  /** The smallest case: one container listed twice hides one stale route. */
  lemma DuplicateNamesHideAStaleRoute()
    ensures var c := ContainerInfo("a", "10.0.0.1", "80", "d");
            var r := Route("a", "d", ["a.localhost"], "10.0.0.1:80", 0, 0);
            var table := map["a" := r, "b" := r.(containerName := "b")];
            && !LooksDrifted(table, [c, c])
            && "b" in Targets(table) && "b" !in Wanted([c, c])
  {
    var c := ContainerInfo("a", "10.0.0.1", "80", "d");
    var r := Route("a", "d", ["a.localhost"], "10.0.0.1:80", 0, 0);
    var table := map["a" := r, "b" := r.(containerName := "b")];
    assert [c, c][..1] == [c] && [c][..0] == [];
    assert CountEligible([c]) == 1 && CountEligible([c, c]) == 2;
    assert table.Keys == {"a", "b"} && "a" != "b";
    assert |table| == 2;
    assert Target(c) == "10.0.0.1:80";
    assert Wanted([c]) == map["a" := Target(c)];
  }
}
