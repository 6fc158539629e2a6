/** What the compiled, sorted rules of a host mean for requests, in terms of the Kalm routes they came from. */
module RouteServing {
  import opened Base
  import opened RouteRules
  import opened RouteOrder

  // ---- one route read directly ----

  predicate Allows(route: HttpRoute, req: Request, holds: Conditions) {
    && req.verb in route.methods
    && (|| (req.gateway == HTTP_GATEWAY && "http" in route.schemes)
        || (req.gateway == HTTPS_GATEWAY && "https" in route.schemes))
    && holds(route.conditions, req)
  }

  /** The route, by one of its paths, is meant to serve the request on this host. */
  predicate Serves(routes: seq<HttpRoute>, host: string, route: HttpRoute, path: string, req: Request, holds: Conditions) {
    && route in routes && host in route.hosts && path in route.paths
    && path <= req.path && Allows(route, req, holds)
  }

  ghost predicate ValidHost(routes: seq<HttpRoute>, host: string) {
    forall route :: route in routes && host in route.hosts ==> ValidRoute(route)
  }

  predicate ValidRequest(req: Request) {
    "/" <= req.path
  }

  // ---- rules accept what their routes allow ----

  lemma VerbsAccepted(methods: seq<string>, verb: string)
    requires methods != [] && forall m :: m in methods ==> '|' !in m
    ensures AcceptsVerb(MethodRegex(methods), verb) <==> verb in methods
  {
    SplitJoined(methods, '|');
    assert "|" == ['|'];
    var regex := MethodRegex(methods);
    assert regex[2..|regex| - 2] == Join(methods, "|");
    assert regex[..2] == "^(" && regex[|regex| - 2..] == ")$";
  }

  lemma {:induction false} GatewaysListed(schemes: seq<string>, gateway: string)
    ensures gateway in Gateways(schemes)
      <==> (gateway == HTTP_GATEWAY && "http" in schemes) || (gateway == HTTPS_GATEWAY && "https" in schemes)
  {
    if schemes != [] {
      var init, last := schemes[..|schemes| - 1], schemes[|schemes| - 1];
      GatewaysListed(init, gateway);
      assert schemes == init + [last];
    }
  }

  lemma RuleAccepts(route: HttpRoute, uri: Option<StringMatch>, req: Request, holds: Conditions)
    requires ValidRoute(route) && (uri.Some? ==> uri.value.Prefix?)
    ensures Accepts(RuleOf(route, MatchOf(route, uri)), req, holds)
      <==> (uri.Some? ==> uri.value.prefix <= req.path) && Allows(route, req, holds)
  {
    VerbsAccepted(route.methods, req.verb);
    GatewaysListed(route.schemes, req.gateway);
  }

  /** Which rule a route contributes for one of its paths. */
  predicate Contributes(route: HttpRoute, path: string, rule: HttpRule) {
    || rule == PlainRule(route, path)
    || (route.stripPath && path != "/" && rule == SlashRule(route, path))
  }

  function PlainRule(route: HttpRoute, path: string): HttpRule {
    RuleOf(route, MatchOf(route, if path != "/" then Some(Prefix(path)) else None))
  }

  function SlashRule(route: HttpRoute, path: string): HttpRule {
    RuleOf(route, MatchOf(route, Some(Prefix(path + "/"))))
  }

  lemma Contributions(routes: seq<HttpRoute>, host: string, rule: HttpRule)
    ensures rule in HostRules(routes, host)
      <==> exists route, path ::
        route in routes && host in route.hosts && path in route.paths && Contributes(route, path, rule)
  {
    HostRulesMember(routes, host, rule);
    forall route ensures rule in RulesOf(route) <==> exists path :: path in route.paths && Contributes(route, path, rule) {
      RulesOfMember(route, rule);
      if path :| path in route.paths && Contributes(route, path, rule) {
        var plain := MatchOf(route, if path != "/" then Some(Prefix(path)) else None);
        var m := if rule == PlainRule(route, path) then plain else MatchOf(route, Some(Prefix(path + "/")));
        assert m in PathMatches(route, path) && rule == RuleOf(route, m);
      }
    }
  }

  lemma ContributedIsPrefixOnly(routes: seq<HttpRoute>, host: string)
    ensures forall rule :: rule in HostRules(routes, host) ==> PrefixOnly(rule)
  {
    forall rule | rule in HostRules(routes, host) ensures PrefixOnly(rule) {
      Contributions(routes, host, rule);
    }
  }

  /** No comparison of two compiled rules panics. */
  lemma CompiledRulesNeverPanic(routes: seq<HttpRoute>, host: string, a: HttpRule, b: HttpRule)
    requires a in HostRules(routes, host) && b in HostRules(routes, host)
    ensures SortRoutes(a, b) != Panic
  {
    ContributedIsPrefixOnly(routes, host);
  }

  // ---- the sorted list ----

  /** The list a host's virtual service carries. */
  ghost predicate Compiled(rules: seq<HttpRule>, routes: seq<HttpRoute>, host: string) {
    SortedFrom(rules, HostRules(routes, host))
  }

  lemma CompiledMember(rules: seq<HttpRule>, routes: seq<HttpRoute>, host: string)
    requires Compiled(rules, routes, host)
    ensures forall rule :: rule in rules <==> rule in HostRules(routes, host)
    ensures forall rule :: rule in rules ==> PrefixOnly(rule)
  {
    ContributedIsPrefixOnly(routes, host);
    forall rule ensures rule in rules <==> rule in HostRules(routes, host) {
      assert rule in multiset(rules) <==> rule in rules;
      assert rule in multiset(HostRules(routes, host)) <==> rule in HostRules(routes, host);
    }
  }

  /** The list with the knowledge that every rule matches by prefix. */
  ghost predicate Usable(rules: seq<HttpRule>) {
    forall rule :: rule in rules ==> PrefixOnly(rule)
  }

  /** A route that serves the request puts an accepting rule on the list. */
  lemma ServingRuleAccepts(rules: seq<HttpRule>, routes: seq<HttpRoute>, host: string,
      route: HttpRoute, path: string, req: Request, holds: Conditions)
    requires Compiled(rules, routes, host) && ValidHost(routes, host) && Serves(routes, host, route, path, req, holds)
    ensures PlainRule(route, path) in rules && Accepts(PlainRule(route, path), req, holds)
    ensures route.stripPath && path != "/" && path + "/" <= req.path ==>
      SlashRule(route, path) in rules && Accepts(SlashRule(route, path), req, holds)
  {
    CompiledMember(rules, routes, host);
    assert Contributes(route, path, PlainRule(route, path));
    Contributions(routes, host, PlainRule(route, path));
    RuleAccepts(route, if path != "/" then Some(Prefix(path)) else None, req, holds);
    if route.stripPath && path != "/" {
      assert Contributes(route, path, SlashRule(route, path));
      Contributions(routes, host, SlashRule(route, path));
      RuleAccepts(route, Some(Prefix(path + "/")), req, holds);
    }
  }

  lemma ContributedForm(route: HttpRoute, path: string, rule: HttpRule)
    requires Contributes(route, path, rule)
    ensures rule == RuleOf(route, MatchOf(route, rule.request.uri)) && PrefixOnly(rule)
    ensures if rule.request.uri.Some? then path <= rule.request.uri.value.prefix else path == "/"
  {
  }

  /** An accepting rule comes from a route that serves the request. */
  lemma AcceptingRuleServes(rules: seq<HttpRule>, routes: seq<HttpRoute>, host: string,
      rule: HttpRule, req: Request, holds: Conditions) returns (route: HttpRoute, path: string)
    requires Compiled(rules, routes, host) && ValidHost(routes, host) && ValidRequest(req)
    requires rule in rules && PrefixOnly(rule) && Accepts(rule, req, holds)
    ensures Serves(routes, host, route, path, req, holds) && Contributes(route, path, rule)
  {
    CompiledMember(rules, routes, host);
    Contributions(routes, host, rule);
    route, path :| route in routes && host in route.hosts && path in route.paths && Contributes(route, path, rule);
    ContributedForm(route, path, rule);
    RuleAccepts(route, rule.request.uri, req, holds);
  }

  /** Some rule serves a request exactly when some route on the host is meant to. */
  lemma ServedIffRouted(rules: seq<HttpRule>, routes: seq<HttpRoute>, host: string, req: Request, holds: Conditions)
    requires Compiled(rules, routes, host) && ValidHost(routes, host) && ValidRequest(req) && Usable(rules)
    ensures FirstMatch(rules, req, holds).Some? <==> exists route, path :: Serves(routes, host, route, path, req, holds)
  {
    var first := FirstMatch(rules, req, holds);
    if first.Some? {
      var route, path := AcceptingRuleServes(rules, routes, host, rules[first.value], req, holds);
    }
    if route, path :| Serves(routes, host, route, path, req, holds) {
      ServingRuleAccepts(rules, routes, host, route, path, req, holds);
    }
  }

  /**
   The rule that serves belongs to a route and path that serve, and no other route on the host serves by a longer
   path - except by exactly that path with a slash added, when the path is stripped.
   */
  lemma LongestPathServes(rules: seq<HttpRule>, routes: seq<HttpRoute>, host: string, req: Request, holds: Conditions)
    returns (route: HttpRoute, path: string)
    requires Compiled(rules, routes, host) && ValidHost(routes, host) && ValidRequest(req) && Usable(rules)
    requires FirstMatch(rules, req, holds).Some?
    ensures Serves(routes, host, route, path, req, holds)
    ensures Contributes(route, path, rules[FirstMatch(rules, req, holds).value])
    ensures forall r, p :: Serves(routes, host, r, p, req, holds) ==>
      |p| <= |path| || (route.stripPath && p == path + "/")
  {
    var winner := rules[FirstMatch(rules, req, holds).value];
    route, path := AcceptingRuleServes(rules, routes, host, winner, req, holds);
    forall r, p | Serves(routes, host, r, p, req, holds)
      ensures |p| <= |path| || (route.stripPath && p == path + "/")
    {
      ServingRuleAccepts(rules, routes, host, r, p, req, holds);
      LongestPrefixWins(rules, req, holds, PlainRule(r, p));
      assert r.paths != [] && p in r.paths;
    }
  }

  // ---- stripping the path ----

  function DropSlash(s: string): string {
    if s != "" && s[0] == '/' then s[1..] else s
  }

  /** The rule that serves for a stripped path is the one with the slash whenever that one accepts. */
  lemma SlashRuleFirst(rules: seq<HttpRule>, routes: seq<HttpRoute>, host: string, route: HttpRoute, path: string,
      req: Request, holds: Conditions)
    requires Compiled(rules, routes, host) && ValidHost(routes, host) && Usable(rules)
    requires Serves(routes, host, route, path, req, holds) && route.stripPath && path != "/"
    requires FirstMatch(rules, req, holds).Some?
    requires Contributes(route, path, rules[FirstMatch(rules, req, holds).value])
    ensures var winner := rules[FirstMatch(rules, req, holds).value];
      winner == if path + "/" <= req.path then SlashRule(route, path) else PlainRule(route, path)
  {
    ServingRuleAccepts(rules, routes, host, route, path, req, holds);
    if path + "/" <= req.path {
      LongestPrefixWins(rules, req, holds, SlashRule(route, path));
    }
  }

  lemma StrippedText(path: string, full: string)
    requires path <= full
    ensures !(path + "/" <= full) ==> DropSlash(full[|path|..]) == full[|path|..]
    ensures path + "/" <= full ==> DropSlash(full[|path|..]) == full[|path + "/"|..]
    ensures "//" <= "/" + DropSlash(full[|path|..]) <==> path + "//" <= full
  {
    var s := full[|path|..];
    assert full == path + s;
    if s != "" && s[0] == '/' {
      assert s == "/" + s[1..] && full[|path + "/"|..] == s[1..];
      assert path + "/" <= full;
      assert path + "//" <= full <==> "//" <= s;
    } else {
      assert s != "" ==> ("/" + s)[1] == s[0];
      assert s != "" ==> full[|path|] == s[0];
    }
  }

  /**
   Stripping: path + "/" + s becomes "/" + s, and path + s becomes "/" + s when s starts with no slash; so a
   double slash appears at the front only if the request had one right after the path.
   */
  lemma StrippedPath(rules: seq<HttpRule>, routes: seq<HttpRoute>, host: string, route: HttpRoute, path: string,
      req: Request, holds: Conditions)
    requires Compiled(rules, routes, host) && ValidHost(routes, host) && Usable(rules)
    requires Serves(routes, host, route, path, req, holds) && route.stripPath && path != "/"
    requires FirstMatch(rules, req, holds).Some?
    requires Contributes(route, path, rules[FirstMatch(rules, req, holds).value])
    ensures var winner := rules[FirstMatch(rules, req, holds).value];
      && PathPrefix(winner) <= req.path
      && RewrittenPath(winner, req.path) == "/" + DropSlash(req.path[|path|..])
      && ("//" <= RewrittenPath(winner, req.path) <==> path + "//" <= req.path)
  {
    SlashRuleFirst(rules, routes, host, route, path, req, holds);
    StrippedText(path, req.path);
  }

  /** Stripping "/" changes nothing, and a route that strips nothing passes the path on. */
  lemma UnstrippedPath(route: HttpRoute, path: string, rule: HttpRule, req: Request)
    requires Contributes(route, path, rule) && ValidRequest(req) && path <= req.path
    requires path == "/" || !route.stripPath
    ensures PathPrefix(rule) <= req.path && RewrittenPath(rule, req.path) == req.path
  {
    assert req.path == "/" + req.path[1..];
  }
}
