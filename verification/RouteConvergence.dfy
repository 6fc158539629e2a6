/** What runs of the route reconciler reach: from which states, after which failures, and when a second run is idle. */
module RouteConvergence {
  import opened Base
  import opened RouteRules
  import opened RouteOrder
  import opened RouteServing
  import opened RouteReconcile

  /** Managed services are named after the one host they hold. */
  ghost predicate Scheme(services: Services) {
    forall n :: n in services && services[n].managed ==>
      |services[n].hosts| == 1 && ServiceName(services[n].hosts[0]) == n
  }

  ghost predicate DistinctNames(hosts: set<string>) {
    forall g, h :: g in hosts && h in hosts && ServiceName(g) == ServiceName(h) ==> g == h
  }

  /** A routed host's service name is held by a managed service of a host that is routed no more. */
  ghost predicate Clash(services: Services, routes: seq<HttpRoute>)
    requires Hosted(services)
  {
    exists host :: host in RoutedHosts(routes) && Stale(services, routes, ServiceName(host))
  }

  ghost predicate ServedAt(services: Services, routes: seq<HttpRoute>, host: string) {
    ServiceName(host) in services && ServiceFor(services[ServiceName(host)], routes, host)
  }

  ghost predicate AllServed(services: Services, routes: seq<HttpRoute>) {
    forall host :: host in RoutedHosts(routes) ==> ServedAt(services, routes, host)
  }

  /** One service per routed host, with that host's sorted rules, and no other managed service. */
  ghost predicate Exact(services: Services, routes: seq<HttpRoute>) {
    && AllServed(services, routes)
    && forall n :: n in services && services[n].managed ==> NamesHost(RoutedHosts(routes), n)
  }

  /** A run without errors serves every routed host exactly when names are distinct and none clashes. */
  lemma AllServedIff(old_: Services, new_: Services, routes: seq<HttpRoute>)
    requires Hosted(old_) && Converged(old_, new_, routes)
    ensures AllServed(new_, routes) <==> DistinctNames(RoutedHosts(routes)) && !Clash(old_, routes)
  {
    var hosts := RoutedHosts(routes);
    if AllServed(new_, routes) {
      forall g, h | g in hosts && h in hosts && ServiceName(g) == ServiceName(h) ensures g == h {
        assert ServedAt(new_, routes, g) && ServedAt(new_, routes, h);
        assert [g][0] == [h][0];
      }
      forall h | h in hosts ensures !Stale(old_, routes, ServiceName(h)) {
        assert ServedAt(new_, routes, h) && ConvergedAt(old_, new_, routes, ServiceName(h));
      }
    }
    if DistinctNames(hosts) && !Clash(old_, routes) {
      forall h | h in hosts ensures ServedAt(new_, routes, h) {
        assert ConvergedAt(old_, new_, routes, ServiceName(h));
      }
    }
  }

  lemma NothingStaleAfter(old_: Services, new_: Services, routes: seq<HttpRoute>, name: string)
    requires Hosted(old_) && Hosted(new_) && ConvergedAt(old_, new_, routes, name)
    ensures !Stale(new_, routes, name)
  {
  }

  lemma NoManagedElse(old_: Services, new_: Services, routes: seq<HttpRoute>, n: string)
    requires Hosted(old_) && Scheme(old_) && ConvergedAt(old_, new_, routes, n)
    requires n in new_ && new_[n].managed
    ensures NamesHost(RoutedHosts(routes), n)
  {
    assert n in old_ && old_[n].managed ==> ServiceName(old_[n].hosts[0]) == n;
  }

  /** From a state that follows the naming scheme the result is exact, under the same condition. */
  lemma ConvergesToExact(old_: Services, new_: Services, routes: seq<HttpRoute>)
    requires Hosted(old_) && Scheme(old_) && Converged(old_, new_, routes)
    ensures Exact(new_, routes) <==> DistinctNames(RoutedHosts(routes)) && !Clash(old_, routes)
  {
    AllServedIff(old_, new_, routes);
    forall n | n in new_ && new_[n].managed ensures NamesHost(RoutedHosts(routes), n) {
      assert ConvergedAt(old_, new_, routes, n);
      NoManagedElse(old_, new_, routes, n);
    }
  }

  /** A clash costs the routed host its service for one run; the next run without errors restores it. */
  lemma SecondRunHeals(s0: Services, s1: Services, s2: Services, routes: seq<HttpRoute>)
    requires Hosted(s0) && Hosted(s1) && Converged(s0, s1, routes) && Converged(s1, s2, routes)
    requires DistinctNames(RoutedHosts(routes))
    ensures AllServed(s2, routes)
    ensures forall h :: h in RoutedHosts(routes) && Stale(s0, routes, ServiceName(h)) ==> ServiceName(h) !in s1
  {
    forall n ensures !Stale(s1, routes, n) {
      assert ConvergedAt(s0, s1, routes, n);
      NothingStaleAfter(s0, s1, routes, n);
    }
    AllServedIff(s1, s2, routes);
    forall h | h in RoutedHosts(routes) && Stale(s0, routes, ServiceName(h)) ensures ServiceName(h) !in s1 {
      assert ConvergedAt(s0, s1, routes, ServiceName(h));
    }
  }

  /** After a run without errors a second one creates and deletes nothing. */
  lemma SecondRunIsIdle(s0: Services, s1: Services, f0: Filters, f1: Filters, routes: seq<HttpRoute>)
    requires Hosted(s0) && Hosted(s1) && Converged(s0, s1, routes)
    requires FiltersConverged(f0, f1, routes) && FiltersFeasible(f0, routes)
    requires DistinctNames(RoutedHosts(routes)) && !Clash(s0, routes)
    ensures Settled(s1, f1, routes)
  {
    AllServedIff(s0, s1, routes);
    forall n ensures !Stale(s1, routes, n) {
      assert ConvergedAt(s0, s1, routes, n);
      NothingStaleAfter(s0, s1, routes, n);
    }
    forall h | h in RoutedHosts(routes) ensures ServiceName(h) in s1 && s1[ServiceName(h)].managed {
      assert ServedAt(s1, routes, h);
    }
    forall n ensures Redirects(routes, n) <==> n in f1 && f1[n] {
      assert FilterConvergedAt(f0, f1, routes, n);
    }
  }

  // ---- stopping anywhere and running again ----

  /** Wherever a run stops, the naming scheme still holds, no clash has appeared and foreign services are untouched. */
  lemma StoppedRunKeeps(old_: Services, new_: Services, routes: seq<HttpRoute>)
    requires Hosted(old_) && Hosted(new_) && Scheme(old_) && Partial(old_, new_, routes)
    ensures Scheme(new_)
    ensures !Clash(old_, routes) ==> !Clash(new_, routes)
    ensures forall n :: (n in old_ && !old_[n].managed <==> n in new_ && !new_[n].managed)
  {
    forall n
      ensures n in new_ && new_[n].managed ==> |new_[n].hosts| == 1 && ServiceName(new_[n].hosts[0]) == n
      ensures Stale(new_, routes, n) ==> Stale(old_, routes, n)
      ensures n in old_ && !old_[n].managed <==> n in new_ && !new_[n].managed
    {
      assert PartialAt(old_, new_, routes, n);
    }
  }

  /** A service name is there after a run without errors exactly when a routed host or a foreign service has it. */
  lemma NamesAfter(old_: Services, new_: Services, routes: seq<HttpRoute>, n: string)
    requires Hosted(old_) && Scheme(old_) && Converged(old_, new_, routes) && !Clash(old_, routes)
    ensures n in new_ <==> NamesHost(RoutedHosts(routes), n) || (n in old_ && !old_[n].managed)
  {
    assert ConvergedAt(old_, new_, routes, n);
    if n in new_ && new_[n].managed {
      NoManagedElse(old_, new_, routes, n);
    }
  }

  /** Failing at any call and running again reaches the same names, each host served, and the very same filters. */
  lemma RerunReachesTheSame(
    s0: Services, s1: Services, s2: Services, direct: Services,
    f0: Filters, f1: Filters, f2: Filters, directFilters: Filters, routes: seq<HttpRoute>)
    requires Hosted(s0) && Hosted(s1) && Scheme(s0) && !Clash(s0, routes) && DistinctNames(RoutedHosts(routes))
    requires Partial(s0, s1, routes) && Converged(s1, s2, routes) && Converged(s0, direct, routes)
    requires FiltersPartial(f0, f1, routes) && FiltersConverged(f1, f2, routes)
    requires FiltersConverged(f0, directFilters, routes)
    ensures s2.Keys == direct.Keys && Exact(s2, routes) && Exact(direct, routes)
    ensures f2 == directFilters
  {
    StoppedRunKeeps(s0, s1, routes);
    ConvergesToExact(s1, s2, routes);
    ConvergesToExact(s0, direct, routes);
    forall n ensures n in s2 <==> n in direct {
      NamesAfter(s1, s2, routes, n);
      NamesAfter(s0, direct, routes, n);
    }
    forall n ensures (n in directFilters <==> n in f2) && (n in directFilters ==> f2[n] == directFilters[n]) {
      FilterRerun(f0, f1, f2, directFilters, routes, n);
    }
    SameMap(f2, directFilters);
  }

  lemma FilterRerun(f0: Filters, f1: Filters, f2: Filters, direct: Filters, routes: seq<HttpRoute>, n: string)
    requires FilterPartialAt(f0, f1, routes, n) && FilterConvergedAt(f1, f2, routes, n)
    requires FilterConvergedAt(f0, direct, routes, n)
    ensures (n in direct <==> n in f2) && (n in direct ==> f2[n] == direct[n])
  {
  }

  // ---- which orders of saving go through ----

  ghost predicate Shares(hosts: set<string>, g: string, h: string) {
    g in hosts && h in hosts && g != h && ServiceName(g) == ServiceName(h)
  }

  ghost predicate SharedAreKept(services: Services, hosts: set<string>, rules: map<string, seq<HttpRule>>) {
    forall g, h :: Shares(hosts, g, h) ==> Keeps(services, rules, g) || Keeps(services, rules, h)
  }

  /** Some of the hosts first, the others after them. */
  lemma OrderWithFirst(first: set<string>, hosts: set<string>) returns (order: seq<string>, n: nat)
    requires first <= hosts
    ensures Enumerates(order, hosts) && n <= |order|
    ensures (forall k :: 0 <= k < n ==> order[k] in first) && forall k :: n <= k < |order| ==> order[k] !in first
  {
    var a := SomeOrder(first);
    var b := SomeOrder(hosts - first);
    order, n := a + b, |a|;
    assert forall k :: 0 <= k < |a| ==> order[k] == a[k] && a[k] in a;
    assert forall k :: |a| <= k < |order| ==> order[k] == b[k - |a|] && b[k - |a|] in b;
  }

  lemma BlockedByShared(services: Services, order: seq<string>, rules: map<string, seq<HttpRule>>, j: nat, k: nat)
    requires j < k < |order| && ServiceName(order[j]) == ServiceName(order[k]) && !Keeps(services, rules, order[j])
    ensures !Passes(services, order, rules)
  {
    assert Blocked(services, order, rules, k);
  }

  lemma PositionIn(order: seq<string>, h: string) returns (k: nat)
    requires h in order
    ensures k < |order| && order[k] == h
  {
    k :| 0 <= k < |order| && order[k] == h;
  }

  /** Every order goes through if and only if service names are distinct and none belongs to a foreign service. */
  lemma EveryOrderPassesIff(services: Services, hosts: set<string>, rules: map<string, seq<HttpRule>>)
    ensures (forall order :: Enumerates(order, hosts) ==> Passes(services, order, rules))
      <==> DistinctNames(hosts) && NoForeign(services, hosts)
  {
    if DistinctNames(hosts) && NoForeign(services, hosts) {
      forall order | Enumerates(order, hosts) ensures Passes(services, order, rules) {
        assert forall k :: 0 <= k < |order| ==> order[k] in hosts;
      }
    }
    if forall order :: Enumerates(order, hosts) ==> Passes(services, order, rules) {
      forall h | h in hosts && ServiceName(h) in services ensures services[ServiceName(h)].managed {
        var order := SomeOrder(hosts);
        var k := PositionIn(order, h);
        assert !Blocked(services, order, rules, k);
      }
      forall g, h | g in hosts && h in hosts && ServiceName(g) == ServiceName(h) ensures g == h {
        if g != h {
          SharedIsBlocked(services, hosts, rules, g, h);
        }
      }
    }
  }

  /** Of two hosts of one service name the one that is not served already blocks the other when saved first. */
  lemma SharedIsBlocked(services: Services, hosts: set<string>, rules: map<string, seq<HttpRule>>, g: string, h: string)
    requires Shares(hosts, g, h)
    ensures exists order :: Enumerates(order, hosts) && !Passes(services, order, rules)
  {
    assert [g][0] != [h][0];
    var first := if Keeps(services, rules, g) then h else g;
    var second := if first == g then h else g;
    assert !Keeps(services, rules, first);
    var order, n := OrderWithFirst({first}, hosts);
    var j := PositionIn(order, first);
    var k := PositionIn(order, second);
    BlockedByShared(services, order, rules, j, k);
  }

  /**
   Some order goes through if and only if no name belongs to a foreign service and of every two hosts that share a
   name one is served already just as it is to be: that one is saved first, changing nothing.
   */
  lemma SomeOrderPassesIff(services: Services, hosts: set<string>, rules: map<string, seq<HttpRule>>)
    ensures (exists order :: Enumerates(order, hosts) && Passes(services, order, rules))
      <==> NoForeign(services, hosts) && SharedAreKept(services, hosts, rules)
  {
    if order :| Enumerates(order, hosts) && Passes(services, order, rules) {
      forall h | h in hosts && ServiceName(h) in services ensures services[ServiceName(h)].managed {
        var k := PositionIn(order, h);
        assert !Blocked(services, order, rules, k);
      }
      forall g, h | Shares(hosts, g, h) ensures Keeps(services, rules, g) || Keeps(services, rules, h) {
        var j := PositionIn(order, g);
        var k := PositionIn(order, h);
        assert !Blocked(services, order, rules, j) && !Blocked(services, order, rules, k);
      }
    }
    if NoForeign(services, hosts) && SharedAreKept(services, hosts, rules) {
      var order := KeptFirst(services, hosts, rules);
    }
  }

  lemma KeptFirst(services: Services, hosts: set<string>, rules: map<string, seq<HttpRule>>) returns (order: seq<string>)
    requires NoForeign(services, hosts) && SharedAreKept(services, hosts, rules)
    ensures Enumerates(order, hosts) && Passes(services, order, rules)
  {
    var kept := set h | h in hosts && Keeps(services, rules, h);
    var n;
    order, n := OrderWithFirst(kept, hosts);
    forall k | 0 <= k < |order| ensures !Blocked(services, order, rules, k) {
      assert order[k] in hosts;
      forall j | 0 <= j < k && ServiceName(order[j]) == ServiceName(order[k]) ensures Keeps(services, rules, order[j]) {
        assert order[j] in hosts && Shares(hosts, order[j], order[k]);
        assert j < n ==> order[j] in kept;
        assert k >= n ==> order[k] !in kept;
        assert [order[j]][0] != [order[k]][0];
      }
    }
  }

  // ---- when service names are distinct ----

  predicate PlainHost(host: string) {
    '-' !in host && '*' !in host
  }

  lemma {:induction false} ReplaceAbsent(s: string, c: char, with: string)
    requires c !in s
    ensures Replace(s, c, with) == s
  {
    if s != "" {
      ReplaceAbsent(s[1..], c, with);
      assert s == [s[0]] + s[1..];
    }
  }

  lemma {:induction false} DotsToDashesInjective(s: string, t: string)
    requires '-' !in s && '-' !in t && Replace(s, '.', "-") == Replace(t, '.', "-")
    ensures s == t
  {
    FirstReplaced(s);
    FirstReplaced(t);
    if s != "" && t != "" {
      DotsToDashesInjective(s[1..], t[1..]);
      assert s == [s[0]] + s[1..] && t == [t[0]] + t[1..];
    }
  }

  lemma FirstReplaced(s: string)
    requires s != ""  ==> s[0] != '-'
    ensures s != "" ==>
      var r := Replace(s, '.', "-");
      |r| > 0 && r[0] == (if s[0] == '.' then '-' else s[0]) && r[1..] == Replace(s[1..], '.', "-")
  {
    if s != "" {
      var rest := Replace(s[1..], '.', "-");
      assert ("-" + rest)[1..] == rest && ([s[0]] + rest)[1..] == rest;
    }
  }

  /** Hosts without a dash and without a wildcard never share a service name. */
  lemma PlainHostsHaveDistinctNames(g: string, h: string)
    requires PlainHost(g) && PlainHost(h) && ServiceName(g) == ServiceName(h)
    ensures g == h
  {
    ReplaceAbsent(g, '*', "wildcard");
    ReplaceAbsent(h, '*', "wildcard");
    assert ServiceName(g)[3..] == Replace(g, '.', "-") && ServiceName(h)[3..] == Replace(h, '.', "-");
    DotsToDashesInjective(g, h);
  }

  lemma DottedName()
    ensures Replace("a.b", '.', "-") == "a-b"
  {
    assert "a.b"[1..] == ".b" && ".b"[1..] == "b" && "b"[1..] == "";
    assert Replace("b", '.', "-") == "b";
    assert Replace(".b", '.', "-") == "-b";
  }

  /** A dash and a dot collide, and then no run without errors serves both hosts. */
  lemma DashAndDotCollide(old_: Services, new_: Services, routes: seq<HttpRoute>)
    requires Hosted(old_) && Converged(old_, new_, routes)
    requires "a-b" in RoutedHosts(routes) && "a.b" in RoutedHosts(routes)
    ensures !AllServed(new_, routes)
  {
    ReplaceAbsent("a-b", '*', "wildcard");
    ReplaceAbsent("a.b", '*', "wildcard");
    ReplaceAbsent("a-b", '.', "-");
    DottedName();
    AllServedIff(old_, new_, routes);
  }
}
