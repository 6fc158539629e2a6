/** What a run of the route reconciler leaves, field by field, in terms of the routes alone. */
module RouteMeaning {
  import opened Base
  import opened RouteRules
  import opened RouteOrder
  import opened RouteServing
  import opened RouteReconcile
  import opened RouteConvergence

  // ---- rules ----

  /** Each scheme has its own ingress gateway, in the order the route lists them. */
  ghost predicate GatewaysFor(schemes: seq<string>, gateways: seq<string>) {
    && |gateways| == |schemes|
    && forall i :: 0 <= i < |schemes| ==> gateways[i] == "istio-system/kalm-" + schemes[i] + "-gateway"
  }

  /** The rule a route writes for one of its paths: for the path itself, or for the path with a slash at its end. */
  ghost predicate WrittenFor(route: HttpRoute, path: string, slash: bool, rule: HttpRule) {
    && rule.name == "kalm-route-" + route.name
    && rule.request.uri ==
      (if slash then Some(Prefix(path + "/")) else if path == "/" then None else Some(Prefix(path)))
    && rule.request.methodRegex == "^(" + Join(route.methods, "|") + ")$"
    && GatewaysFor(route.schemes, rule.request.gateways)
    && rule.request.conditions == route.conditions
    && rule.rewrite == if route.stripPath then Some("/") else None
  }

  /** Some route that names the host has the path; the second rule is only for paths to be stripped. */
  ghost predicate AsksFor(routes: seq<HttpRoute>, host: string, route: HttpRoute, path: string, slash: bool) {
    && route in routes && host in route.hosts && path in route.paths
    && (slash ==> route.stripPath && path != "/")
  }

  lemma GatewayNames(scheme: string)
    ensures scheme == "http" ==> HTTP_GATEWAY == "istio-system/kalm-" + scheme + "-gateway"
    ensures scheme == "https" ==> HTTPS_GATEWAY == "istio-system/kalm-" + scheme + "-gateway"
  {
  }

  lemma {:induction false} GatewaysMean(schemes: seq<string>)
    requires forall s :: s in schemes ==> s == "http" || s == "https"
    ensures GatewaysFor(schemes, Gateways(schemes))
  {
    if schemes != [] {
      var init, last := schemes[..|schemes| - 1], schemes[|schemes| - 1];
      assert last in schemes && forall s :: s in init ==> s in schemes;
      GatewaysMean(init);
      GatewayNames(last);
    }
  }

  lemma GatewaysAreThese(schemes: seq<string>, a: seq<string>, b: seq<string>)
    requires GatewaysFor(schemes, a) && GatewaysFor(schemes, b)
    ensures a == b
  {
  }

  lemma WrittenIsContributed(route: HttpRoute, path: string, rule: HttpRule)
    requires ValidRoute(route)
    ensures Contributes(route, path, rule) <==>
      WrittenFor(route, path, false, rule) || (route.stripPath && path != "/" && WrittenFor(route, path, true, rule))
  {
    GatewaysMean(route.schemes);
    if GatewaysFor(route.schemes, rule.request.gateways) {
      GatewaysAreThese(route.schemes, rule.request.gateways, Gateways(route.schemes));
    }
  }

  /** A host carries exactly the rules the routes that name it write for their paths. */
  lemma RulesMean(routes: seq<HttpRoute>, host: string, rule: HttpRule)
    requires ValidHost(routes, host)
    ensures rule in HostRules(routes, host) <==>
      exists route, path, slash :: AsksFor(routes, host, route, path, slash) && WrittenFor(route, path, slash, rule)
  {
    Contributions(routes, host, rule);
    if route, path :| route in routes && host in route.hosts && path in route.paths && Contributes(route, path, rule) {
      WrittenIsContributed(route, path, rule);
      assert AsksFor(routes, host, route, path, false);
      assert route.stripPath && path != "/" ==> AsksFor(routes, host, route, path, true);
    }
    if route, path, slash :| AsksFor(routes, host, route, path, slash) && WrittenFor(route, path, slash, rule) {
      WrittenIsContributed(route, path, rule);
    }
  }

  // ---- names ----

  /** One part of a host name and what stands for it in the service's name. */
  predicate PartFor(part: string, text: string) {
    '.' !in part && if part == "*" then text == "wildcard" else '*' !in part && text == part
  }

  ghost predicate PartsFor(parts: seq<string>, texts: seq<string>) {
    |parts| == |texts| && forall i :: 0 <= i < |parts| ==> PartFor(parts[i], texts[i])
  }

  lemma {:induction false} ReplaceJoined(a: string, b: string, c: char, with: string)
    ensures Replace(a + b, c, with) == Replace(a, c, with) + Replace(b, c, with)
  {
    if a == "" {
      assert a + b == b;
    } else {
      assert (a + b)[1..] == a[1..] + b;
      ReplaceJoined(a[1..], b, c, with);
    }
  }

  lemma ReplaceOne(c: char, with: string)
    ensures Replace([c], c, with) == with
  {
    assert [c][1..] == "";
  }

  function Dashed(host: string): string {
    Replace(Replace(host, '*', "wildcard"), '.', "-")
  }

  lemma PartReplaced(part: string, text: string)
    requires PartFor(part, text)
    ensures Dashed(part) == text
  {
    if part == "*" {
      ReplaceOne('*', "wildcard");
      ReplaceAbsent("wildcard", '.', "-");
    } else {
      ReplaceAbsent(part, '*', "wildcard");
      ReplaceAbsent(part, '.', "-");
    }
  }

  lemma DottedReplaced(first: string, rest: string)
    ensures Dashed(first + "." + rest) == Dashed(first) + "-" + Dashed(rest)
  {
    ReplaceJoined(first + ".", rest, '*', "wildcard");
    ReplaceJoined(first, ".", '*', "wildcard");
    ReplaceAbsent(".", '*', "wildcard");
    var a, b := Replace(first, '*', "wildcard"), Replace(rest, '*', "wildcard");
    ReplaceJoined(a + ".", b, '.', "-");
    ReplaceJoined(a, ".", '.', "-");
    ReplaceOne('.', "-");
  }

  /** A host's parts end up joined by dashes, "wildcard" standing for a star. */
  lemma {:induction false} PartsReplaced(parts: seq<string>, texts: seq<string>)
    requires PartsFor(parts, texts)
    ensures Dashed(Join(parts, ".")) == Join(texts, "-")
  {
    if parts != [] {
      PartReplaced(parts[0], texts[0]);
      if |parts| > 1 {
        PartsReplaced(parts[1..], texts[1..]);
        DottedReplaced(parts[0], Join(parts[1..], "."));
      }
    }
  }

  /** A service is named after its host: the parts joined by dashes, "wildcard" standing for a star. */
  lemma ServiceNameMeans(parts: seq<string>, texts: seq<string>)
    requires parts != [] && PartsFor(parts, texts)
    ensures ServiceName(Join(parts, ".")) == "vs-" + Join(texts, "-")
  {
    PartsReplaced(parts, texts);
  }

  // ---- what is stored after a run ----

  /** The service carries one host and, in serving order, just the rules the routes naming it write. */
  ghost predicate ServesHost(vs: VirtualService, routes: seq<HttpRoute>, host: string) {
    && vs.managed && vs.hosts == [host] && Sorted(vs.http)
    && forall rule :: rule in vs.http <==>
      exists route, path, slash :: AsksFor(routes, host, route, path, slash) && WrittenFor(route, path, slash, rule)
  }

  /** Without a clash of names a run without errors leaves every host that some route names its own service. */
  lemma HostIsServed(old_: Services, new_: Services, routes: seq<HttpRoute>, route: HttpRoute,
      parts: seq<string>, texts: seq<string>)
    requires Hosted(old_) && Converged(old_, new_, routes) && DistinctNames(RoutedHosts(routes)) && !Clash(old_, routes)
    requires parts != [] && PartsFor(parts, texts) && ValidHost(routes, Join(parts, "."))
    requires route in routes && Join(parts, ".") in route.hosts
    ensures "vs-" + Join(texts, "-") in new_
    ensures ServesHost(new_["vs-" + Join(texts, "-")], routes, Join(parts, "."))
  {
    var host := Join(parts, ".");
    ServiceNameMeans(parts, texts);
    AllServedIff(old_, new_, routes);
    assert ServedAt(new_, routes, host);
    var vs := new_[ServiceName(host)];
    CompiledMember(vs.http, routes, host);
    forall rule ensures rule in vs.http <==>
      exists route, path, slash :: AsksFor(routes, host, route, path, slash) && WrittenFor(route, path, slash, rule)
    {
      RulesMean(routes, host, rule);
    }
  }

  /** And it leaves no managed service but those of hosts that some route names. */
  lemma OnlyNamedHosts(old_: Services, new_: Services, routes: seq<HttpRoute>, name: string)
    requires Hosted(old_) && Scheme(old_) && Converged(old_, new_, routes) && DistinctNames(RoutedHosts(routes))
    requires name in new_ && new_[name].managed
    ensures exists route, host :: route in routes && host in route.hosts && new_[name].hosts == [host]
  {
    assert ConvergedAt(old_, new_, routes, name);
    NoManagedElse(old_, new_, routes, name);
    assert ForSomeHost(new_[name], routes, RoutedHosts(routes), name);
  }

  /** After a run without errors Kalm's filters are those of the redirecting routes; foreign ones are untouched. */
  lemma FiltersMean(old_: Filters, new_: Filters, routes: seq<HttpRoute>)
    requires FiltersConverged(old_, new_, routes) && FiltersFeasible(old_, routes)
    ensures forall name :: name in new_ && new_[name] <==>
      exists route :: route in routes && route.httpRedirectToHttps && name == "https-redirect-" + route.name
    ensures forall name :: (name in old_ && !old_[name]) <==> (name in new_ && !new_[name])
  {
    forall name
      ensures name in new_ && new_[name] <==>
        exists route :: route in routes && route.httpRedirectToHttps && name == "https-redirect-" + route.name
      ensures (name in old_ && !old_[name]) <==> (name in new_ && !new_[name])
    {
      assert FilterConvergedAt(old_, new_, routes, name);
    }
  }

  /** One rule for every path and one more for each path to be stripped but the root. */
  lemma {:induction false} MatchCount(route: HttpRoute, paths: seq<string>)
    ensures |Matches(route, paths)| == |paths| + if route.stripPath then |paths| - multiset(paths)["/"] else 0
  {
    if paths != [] {
      var init, last := paths[..|paths| - 1], paths[|paths| - 1];
      MatchCount(route, init);
      assert paths == init + [last];
    }
  }
}
