/** Kalm HTTP routes compiled into Istio rules: one rule per path, two for a path that is stripped. */
module RouteRules {
  import opened Base

  const HTTP_GATEWAY := "istio-system/kalm-http-gateway"
  const HTTPS_GATEWAY := "istio-system/kalm-https-gateway"

  datatype Condition = Condition(kind: string, name: string, operator: string, value: string)

  datatype HttpRoute = HttpRoute(
    namespace: string, name: string, hosts: seq<string>, paths: seq<string>, methods: seq<string>,
    schemes: seq<string>, conditions: seq<Condition>, stripPath: bool, httpRedirectToHttps: bool)

  datatype StringMatch = Exact(exact: string) | Prefix(prefix: string) | Regex(regex: string)

  datatype HttpMatch = HttpMatch(
    uri: Option<StringMatch>, methodRegex: string, gateways: seq<string>, conditions: seq<Condition>)

  datatype HttpRule = HttpRule(name: string, request: HttpMatch, rewrite: Option<string>)

  /** What the resource schema and the admission webhook let through. */
  predicate ValidRoute(route: HttpRoute) {
    && (forall p :: p in route.paths ==> p != "" && p[0] == '/')
    && route.methods != [] && (forall m :: m in route.methods ==> '|' !in m)
    && route.schemes != [] && (forall s :: s in route.schemes ==> s == "http" || s == "https")
  }

  // ---- the compiled form ----

  function MethodRegex(methods: seq<string>): string {
    "^(" + Join(methods, "|") + ")$"
  }

  function Gateways(schemes: seq<string>): seq<string> {
    if schemes == [] then [] else
      var last := schemes[|schemes| - 1];
      Gateways(schemes[..|schemes| - 1])
      + (if last == "http" then [HTTP_GATEWAY] else if last == "https" then [HTTPS_GATEWAY] else [])
  }

  function MatchOf(route: HttpRoute, uri: Option<StringMatch>): HttpMatch {
    HttpMatch(uri, MethodRegex(route.methods), Gateways(route.schemes), route.conditions)
  }

  function PathMatches(route: HttpRoute, path: string): seq<HttpMatch> {
    [MatchOf(route, if path != "/" then Some(Prefix(path)) else None)]
    + (if route.stripPath && path != "/" then [MatchOf(route, Some(Prefix(path + "/")))] else [])
  }

  function Matches(route: HttpRoute, paths: seq<string>): seq<HttpMatch> {
    if paths == [] then []
    else Matches(route, paths[..|paths| - 1]) + PathMatches(route, paths[|paths| - 1])
  }

  function RuleOf(route: HttpRoute, m: HttpMatch): HttpRule {
    HttpRule("kalm-route-" + route.name, m, if route.stripPath then Some("/") else None)
  }

  function RulesOf(route: HttpRoute): (rules: seq<HttpRule>)
    ensures |rules| == |Matches(route, route.paths)|
  {
    var matches := Matches(route, route.paths);
    seq(|matches|, i requires 0 <= i < |matches| => RuleOf(route, matches[i]))
  }

  /** The rules one route adds to a host, once for every time it names the host. */
  function RulesOnHost(route: HttpRoute, hosts: seq<string>, host: string): seq<HttpRule> {
    if hosts == [] then []
    else RulesOnHost(route, hosts[..|hosts| - 1], host) + (if hosts[|hosts| - 1] == host then RulesOf(route) else [])
  }

  function HostRules(routes: seq<HttpRoute>, host: string): seq<HttpRule> {
    if routes == [] then []
    else
      var last := routes[|routes| - 1];
      HostRules(routes[..|routes| - 1], host) + RulesOnHost(last, last.hosts, host)
  }

  function RoutedHosts(routes: seq<HttpRoute>): set<string> {
    set route, host | route in routes && host in route.hosts :: host
  }

  // ---- the methods that build it ----

  method MethodRegexp(methods: seq<string>) returns (regexp: string)
    ensures regexp == MethodRegex(methods)
  {
    var text := "^(";
    assert methods[0..] == methods;
    for i := 0 to |methods|
      invariant text + Join(methods[i..], "|") == "^(" + Join(methods, "|")
    {
      assert methods[i..][1..] == methods[i + 1..];
      ghost var rest := Join(methods[i + 1..], "|");
      text := text + methods[i];
      if i < |methods| - 1 {
        assert text + ("|" + rest) == (text + "|") + rest;
        text := text + "|";
      }
    }
    regexp := text + ")$";
  }

  method SchemeGateways(schemes: seq<string>) returns (gateways: seq<string>)
    ensures gateways == Gateways(schemes)
  {
    gateways := [];
    for i := 0 to |schemes|
      invariant gateways == Gateways(schemes[..i])
    {
      assert schemes[..i + 1][..i] == schemes[..i];
      if schemes[i] == "http" {
        gateways := gateways + [HTTP_GATEWAY];
      } else if schemes[i] == "https" {
        gateways := gateways + [HTTPS_GATEWAY];
      }
    }
    assert schemes[..|schemes|] == schemes;
  }

  method BuildMatches(route: HttpRoute) returns (res: seq<HttpMatch>)
    ensures res == Matches(route, route.paths)
  {
    res := [];
    for i := 0 to |route.paths|
      invariant res == Matches(route, route.paths[..i])
    {
      assert route.paths[..i + 1][..i] == route.paths[..i];
      ghost var before := res;
      var path := route.paths[i];
      var regexp := MethodRegexp(route.methods);
      var gateways := SchemeGateways(route.schemes);
      var m := HttpMatch(None, regexp, gateways, route.conditions);
      if path != "/" {
        m := m.(uri := Some(Prefix(path)));
      }
      res := res + [m];
      if route.stripPath && path != "/" {
        res := res + [m.(uri := Some(Prefix(path + "/")))];
      }
      assert res == before + PathMatches(route, path);
    }
    assert route.paths[..|route.paths|] == route.paths;
  }

  method BuildIstioHttpRoutes(route: HttpRoute) returns (res: seq<HttpRule>)
    ensures res == RulesOf(route)
  {
    var matches := BuildMatches(route);
    res := [];
    for i := 0 to |matches|
      invariant res == RulesOf(route)[..i]
    {
      res := res + [RuleOf(route, matches[i])];
    }
  }

  /** Every routed host with the rules of all routes that name it, in list order. */
  method BuildHostRules(routes: seq<HttpRoute>) returns (rules: map<string, seq<HttpRule>>)
    ensures rules.Keys == RoutedHosts(routes)
    ensures forall host :: host in rules ==> rules[host] == HostRules(routes, host)
  {
    rules := map[];
    for i := 0 to |routes|
      invariant Collected(rules, routes[..i])
    {
      rules := AddRoute(rules, routes[..i], routes[i]);
      assert routes[..i] + [routes[i]] == routes[..i + 1];
    }
    assert routes[..|routes|] == routes;
  }

  ghost predicate Collected(rules: map<string, seq<HttpRule>>, routes: seq<HttpRoute>) {
    && rules.Keys == RoutedHosts(routes)
    && forall host :: host in rules ==> rules[host] == HostRules(routes, host)
  }

  lemma {:induction false} NoRulesOffHost(route: HttpRoute, hosts: seq<string>, host: string)
    ensures host !in hosts ==> RulesOnHost(route, hosts, host) == []
  {
    if hosts != [] {
      NoRulesOffHost(route, hosts[..|hosts| - 1], host);
    }
  }

  lemma {:induction false} NoRulesUnrouted(routes: seq<HttpRoute>, host: string)
    requires host !in RoutedHosts(routes)
    ensures HostRules(routes, host) == []
  {
    if routes != [] {
      var init, last := routes[..|routes| - 1], routes[|routes| - 1];
      assert last in routes;
      NoRulesUnrouted(init, host);
      NoRulesOffHost(last, last.hosts, host);
    }
  }

  /** The map while one route's hosts are being added, `hosts` of them so far. */
  ghost predicate Adding(rules: map<string, seq<HttpRule>>, routes: seq<HttpRoute>, route: HttpRoute, hosts: seq<string>) {
    forall h :: AddingAt(rules, routes, route, hosts, h)
  }

  ghost predicate AddingAt(rules: map<string, seq<HttpRule>>, routes: seq<HttpRoute>, route: HttpRoute,
      hosts: seq<string>, h: string)
  {
    && (h in rules <==> h in RoutedHosts(routes) || h in hosts)
    && (h in rules ==> rules[h] == HostRules(routes, h) + RulesOnHost(route, hosts, h))
  }

  method AddRoute(before: map<string, seq<HttpRule>>, ghost routes: seq<HttpRoute>, route: HttpRoute)
    returns (rules: map<string, seq<HttpRule>>)
    requires Collected(before, routes)
    ensures Collected(rules, routes + [route])
  {
    rules := before;
    for i := 0 to |route.hosts|
      invariant Adding(rules, routes, route, route.hosts[..i])
    {
      rules := AddHost(rules, routes, route, i);
    }
    AddedRoute(rules, routes, route);
  }

  method AddHost(before: map<string, seq<HttpRule>>, ghost routes: seq<HttpRoute>, route: HttpRoute, i: nat)
    returns (rules: map<string, seq<HttpRule>>)
    requires i < |route.hosts| && Adding(before, routes, route, route.hosts[..i])
    ensures Adding(rules, routes, route, route.hosts[..i + 1])
  {
    var host := route.hosts[i];
    var built := BuildIstioHttpRoutes(route);
    if host in before {
      rules := before[host := before[host] + built];
    } else {
      rules := before[host := built];
      assert built == [] + built;
    }
    ghost var done := route.hosts[..i + 1];
    forall h ensures AddingAt(rules, routes, route, done, h) {
      HostAdded(before, rules, routes, route, i, h);
    }
  }

  lemma HostAdded(before: map<string, seq<HttpRule>>, rules: map<string, seq<HttpRule>>,
      routes: seq<HttpRoute>, route: HttpRoute, i: nat, h: string)
    requires i < |route.hosts| && Adding(before, routes, route, route.hosts[..i])
    requires rules ==
      before[route.hosts[i] := (if route.hosts[i] in before then before[route.hosts[i]] else []) + RulesOf(route)]
    ensures AddingAt(rules, routes, route, route.hosts[..i + 1], h)
  {
    var done, host := route.hosts[..i], route.hosts[i];
    assert AddingAt(before, routes, route, done, h);
    assert route.hosts[..i + 1] == done + [host] && (done + [host])[..i] == done;
    if h == host {
      if h !in before {
        NoRulesUnrouted(routes, h);
        NoRulesOffHost(route, done, h);
      }
    } else {
      assert h in rules <==> h in before;
      assert RulesOnHost(route, done + [host], h) == RulesOnHost(route, done, h);
    }
  }

  lemma AddedRoute(rules: map<string, seq<HttpRule>>, routes: seq<HttpRoute>, route: HttpRoute)
    requires Adding(rules, routes, route, route.hosts[..|route.hosts|])
    ensures Collected(rules, routes + [route])
  {
    var all := routes + [route];
    assert route.hosts[..|route.hosts|] == route.hosts;
    assert all[..|all| - 1] == routes;
    forall host ensures host in rules <==> host in RoutedHosts(all) {
      assert AddingAt(rules, routes, route, route.hosts, host);
      assert route in all;
    }
    forall host | host in rules ensures rules[host] == HostRules(all, host) {
      assert AddingAt(rules, routes, route, route.hosts, host);
    }
  }

  // ---- what the rules of a host are, as a set ----

  lemma {:induction false} MatchesMember(route: HttpRoute, paths: seq<string>, m: HttpMatch)
    ensures m in Matches(route, paths) <==> exists path :: path in paths && m in PathMatches(route, path)
  {
    if paths != [] {
      var init, last := paths[..|paths| - 1], paths[|paths| - 1];
      MatchesMember(route, init, m);
      assert paths == init + [last];
    }
  }

  lemma RulesOfMember(route: HttpRoute, rule: HttpRule)
    ensures rule in RulesOf(route)
      <==> exists path, m :: path in route.paths && m in PathMatches(route, path) && rule == RuleOf(route, m)
  {
    var matches := Matches(route, route.paths);
    if rule in RulesOf(route) {
      var i :| 0 <= i < |matches| && rule == RuleOf(route, matches[i]);
      MatchesMember(route, route.paths, matches[i]);
    }
    if path, m :| path in route.paths && m in PathMatches(route, path) && rule == RuleOf(route, m) {
      MatchesMember(route, route.paths, m);
      var i :| 0 <= i < |matches| && matches[i] == m;
      assert RulesOf(route)[i] == rule;
    }
  }

  lemma {:induction false} RulesOnHostMember(route: HttpRoute, hosts: seq<string>, host: string, rule: HttpRule)
    ensures rule in RulesOnHost(route, hosts, host) <==> host in hosts && rule in RulesOf(route)
  {
    if hosts != [] {
      RulesOnHostMember(route, hosts[..|hosts| - 1], host, rule);
      assert hosts == hosts[..|hosts| - 1] + [hosts[|hosts| - 1]];
    }
  }

  /** A host carries exactly the rules of the routes that name it. */
  lemma {:induction false} HostRulesMember(routes: seq<HttpRoute>, host: string, rule: HttpRule)
    ensures rule in HostRules(routes, host)
      <==> exists route :: route in routes && host in route.hosts && rule in RulesOf(route)
  {
    if routes != [] {
      var init, last := routes[..|routes| - 1], routes[|routes| - 1];
      HostRulesMember(init, host, rule);
      RulesOnHostMember(last, last.hosts, host, rule);
      assert routes == init + [last];
    }
  }
}
