/**
 The reconciler that keeps one virtual service per routed host and one redirect filter per redirecting route.
 Any API call may fail; the run then stops where it is. Map iteration order is left open.
 */
module RouteReconcile {
  import opened Base
  import opened RouteRules
  import opened RouteOrder
  import opened RouteServing

  /**
   An Istio virtual service in the kalm-system namespace; managed ones carry Kalm's route label. The API server gives
   it a new revision with every write that changes it.
   */
  datatype VirtualService = VirtualService(managed: bool, hosts: seq<string>, http: seq<HttpRule>, rev: nat)

  type Services = map<string, VirtualService>

  /** Envoy filters by name; the value says whether the filter carries Kalm's route label. */
  type Filters = map<string, bool>

  function Replace(s: string, c: char, with: string): string {
    if s == "" then "" else (if s[0] == c then with else [s[0]]) + Replace(s[1..], c, with)
  }

  function ServiceName(host: string): string {
    "vs-" + Replace(Replace(host, '*', "wildcard"), '.', "-")
  }

  function FilterName(route: HttpRoute): string {
    "https-redirect-" + route.name
  }

  // ---- what a run aims at ----

  predicate Redirects(routes: seq<HttpRoute>, name: string) {
    exists route :: route in routes && route.httpRedirectToHttps && FilterName(route) == name
  }

  predicate NamesHost(hosts: set<string>, name: string) {
    exists host :: host in hosts && ServiceName(host) == name
  }

  /** Istio admits no virtual service without a host. */
  predicate Hosted(services: Services) {
    forall n :: n in services ==> services[n].hosts != []
  }

  ghost predicate ServiceFor(vs: VirtualService, routes: seq<HttpRoute>, host: string) {
    vs.managed && vs.hosts == [host] && Compiled(vs.http, routes, host)
  }

  ghost predicate ForSomeHost(vs: VirtualService, routes: seq<HttpRoute>, hosts: set<string>, name: string) {
    exists host :: host in hosts && ServiceName(host) == name && ServiceFor(vs, routes, host)
  }

  predicate Stale(services: Services, routes: seq<HttpRoute>, name: string)
    requires Hosted(services)
  {
    name in services && services[name].managed && services[name].hosts[0] !in RoutedHosts(routes)
  }

  ghost predicate Same<V>(old_: map<string, V>, new_: map<string, V>, name: string) {
    (name in old_ <==> name in new_) && (name in old_ ==> new_[name] == old_[name])
  }

  /** After a run without errors: stale services are gone - even one that was just rewritten for a routed host. */
  ghost predicate ConvergedAt(old_: Services, new_: Services, routes: seq<HttpRoute>, name: string)
    requires Hosted(old_)
  {
    if Stale(old_, routes, name) then name !in new_
    else if NamesHost(RoutedHosts(routes), name) then
      name in new_ && ForSomeHost(new_[name], routes, RoutedHosts(routes), name)
    else Same(old_, new_, name)
  }

  ghost predicate Converged(old_: Services, new_: Services, routes: seq<HttpRoute>)
    requires Hosted(old_)
  {
    forall name :: ConvergedAt(old_, new_, routes, name)
  }

  /** Wherever a run stops: every service is as it was, or written for a routed host, or was stale and is gone. */
  ghost predicate PartialAt(old_: Services, new_: Services, routes: seq<HttpRoute>, name: string)
    requires Hosted(old_)
  {
    || Same(old_, new_, name)
    || (Stale(old_, routes, name) && name !in new_)
    || (&& name in new_ && (name in old_ ==> old_[name].managed)
        && ForSomeHost(new_[name], routes, RoutedHosts(routes), name))
  }

  ghost predicate Partial(old_: Services, new_: Services, routes: seq<HttpRoute>)
    requires Hosted(old_)
  {
    forall name :: PartialAt(old_, new_, routes, name)
  }

  ghost predicate FilterConvergedAt(old_: Filters, new_: Filters, routes: seq<HttpRoute>, name: string) {
    if name in old_ && !old_[name] then Same(old_, new_, name)
    else (name in new_ <==> Redirects(routes, name)) && (name in new_ ==> new_[name])
  }

  ghost predicate FiltersConverged(old_: Filters, new_: Filters, routes: seq<HttpRoute>) {
    forall name :: FilterConvergedAt(old_, new_, routes, name)
  }

  /** Wherever a run stops: filters only appear for redirecting routes and only disappear without one. */
  ghost predicate FilterPartialAt(old_: Filters, new_: Filters, routes: seq<HttpRoute>, name: string) {
    || Same(old_, new_, name)
    || (name in old_ && old_[name] && name !in new_ && !Redirects(routes, name))
    || (name !in old_ && name in new_ && new_[name] && Redirects(routes, name))
  }

  ghost predicate FiltersPartial(old_: Filters, new_: Filters, routes: seq<HttpRoute>) {
    forall name :: FilterPartialAt(old_, new_, routes, name)
  }

  // ---- what stands in a run's way ----

  /** The host's service is there already, just as it is about to be written: the write changes nothing. */
  ghost predicate Keeps(services: Services, rules: map<string, seq<HttpRule>>, host: string) {
    var name := ServiceName(host);
    && name in services && host in rules
    && services[name].managed && services[name].hosts == [host] && services[name].http == rules[host]
  }

  /**
   Saving the k-th host in this order meets an object that is not Kalm's, or one that an earlier host of the same
   service name has created or changed since it was listed.
   */
  ghost predicate Blocked(services: Services, order: seq<string>, rules: map<string, seq<HttpRule>>, k: nat)
    requires k < |order|
  {
    var name := ServiceName(order[k]);
    || (name in services && !services[name].managed)
    || exists j :: 0 <= j < k && ServiceName(order[j]) == name && !Keeps(services, rules, order[j])
  }

  ghost predicate Passes(services: Services, order: seq<string>, rules: map<string, seq<HttpRule>>) {
    forall k :: 0 <= k < |order| ==> !Blocked(services, order, rules, k)
  }

  ghost predicate BlockedLast(services: Services, order: seq<string>, rules: map<string, seq<HttpRule>>) {
    order != [] && Blocked(services, order, rules, |order| - 1)
  }

  ghost predicate SortedRules(rules: map<string, seq<HttpRule>>, routes: seq<HttpRoute>) {
    forall h :: h in rules ==> Compiled(rules[h], routes, h)
  }

  ghost predicate NoForeign(services: Services, hosts: set<string>) {
    forall h :: h in hosts && ServiceName(h) in services ==> services[ServiceName(h)].managed
  }

  /** No service is of a later revision than the clock shows. */
  ghost predicate Clocked(services: Services, clock: nat) {
    forall n :: n in services ==> services[n].rev <= clock
  }

  ghost predicate FiltersFeasible(filters: Filters, routes: seq<HttpRoute>) {
    && (forall r :: r in routes && r.httpRedirectToHttps && FilterName(r) in filters ==> filters[FilterName(r)])
    && forall i, j :: 0 <= i < j < |routes| && routes[i].httpRedirectToHttps && routes[j].httpRedirectToHttps ==>
      FilterName(routes[i]) != FilterName(routes[j])
  }

  /** Nothing to create and nothing to delete. */
  ghost predicate Settled(services: Services, filters: Filters, routes: seq<HttpRoute>)
    requires Hosted(services)
  {
    && (forall h :: h in RoutedHosts(routes) ==> ServiceName(h) in services && services[ServiceName(h)].managed)
    && (forall n :: !Stale(services, routes, n))
    && (forall n :: Redirects(routes, n) <==> n in filters && filters[n])
  }

  // ---- the API server and the reconciler ----

  class RouteReconciler {
    var services: Services
    var filters: Filters
    /** The latest revision given out. */
    var clock: nat
    /** API calls that will still be answered. */
    var budget: nat
    /** Objects created and deleted so far. */
    var churn: nat

    constructor (services: Services, filters: Filters, clock: nat, budget: nat)
      requires Clocked(services, clock)
      ensures this.services == services && this.filters == filters && this.clock == clock && this.budget == budget
      ensures churn == 0
    {
      this.clock := clock;
      this.services := services;
      this.filters := filters;
      this.budget := budget;
      churn := 0;
    }

    method List() returns (ok: bool)
      modifies `budget
      ensures ok <==> old(budget) > 0
      ensures budget <= old(budget)
    {
      ok := budget > 0;
      if ok { budget := budget - 1; }
    }

    method CreateService(name: string, hosts: seq<string>, http: seq<HttpRule>) returns (ok: bool)
      requires Clocked(services, clock)
      modifies `services, `clock, `budget, `churn
      ensures ok <==> old(budget) > 0 && name !in old(services)
      ensures services == if ok then old(services)[name := VirtualService(true, hosts, http, clock)] else old(services)
      ensures clock == old(clock) + (if ok then 1 else 0) && Clocked(services, clock)
      ensures churn == old(churn) + if ok then 1 else 0
      ensures !ok ==> budget == 0 || name in services
    {
      ok := budget > 0 && name !in services;
      if budget > 0 { budget := budget - 1; }
      if ok {
        clock := clock + 1;
        services := services[name := VirtualService(true, hosts, http, clock)];
        churn := churn + 1;
      }
    }

    /** Refused unless the object still has the revision it was read at; a write that changes nothing leaves it. */
    method UpdateService(name: string, rev: nat, hosts: seq<string>, http: seq<HttpRule>) returns (ok: bool)
      requires Clocked(services, clock)
      modifies `services, `clock, `budget
      ensures ok <==> old(budget) > 0 && name in old(services) && old(services)[name].rev == rev
      ensures !ok ==> services == old(services) && clock == old(clock)
      ensures ok ==>
        var vs := old(services)[name];
        if vs == VirtualService(true, hosts, http, rev) then services == old(services) && clock == old(clock)
        else clock == old(clock) + 1 && services == old(services)[name := VirtualService(true, hosts, http, clock)]
      ensures Clocked(services, clock)
      ensures !ok ==> budget == 0 || name !in services || services[name].rev != rev
    {
      ok := budget > 0 && name in services && services[name].rev == rev;
      if budget > 0 { budget := budget - 1; }
      if ok && services[name] != VirtualService(true, hosts, http, rev) {
        clock := clock + 1;
        services := services[name := VirtualService(true, hosts, http, clock)];
      }
    }

    method DeleteService(name: string) returns (ok: bool)
      requires Clocked(services, clock)
      modifies `services, `budget, `churn
      ensures ok <==> old(budget) > 0 && name in old(services)
      ensures services == (if ok then old(services) - {name} else old(services)) && Clocked(services, clock)
      ensures churn == old(churn) + if ok then 1 else 0
      ensures !ok ==> budget == 0 || name !in services
    {
      ok := budget > 0 && name in services;
      if budget > 0 { budget := budget - 1; }
      if ok {
        services := services - {name};
        churn := churn + 1;
      }
    }

    method CreateFilter(name: string) returns (ok: bool)
      modifies `filters, `budget, `churn
      ensures ok <==> old(budget) > 0 && name !in old(filters)
      ensures filters == if ok then old(filters)[name := true] else old(filters)
      ensures churn == old(churn) + if ok then 1 else 0
      ensures !ok ==> budget == 0 || name in filters
    {
      ok := budget > 0 && name !in filters;
      if budget > 0 { budget := budget - 1; }
      if ok {
        filters := filters[name := true];
        churn := churn + 1;
      }
    }

    method DeleteFilter(name: string) returns (ok: bool)
      modifies `filters, `budget, `churn
      ensures ok <==> old(budget) > 0 && name in old(filters)
      ensures filters == if ok then old(filters) - {name} else old(filters)
      ensures churn == old(churn) + if ok then 1 else 0
      ensures !ok ==> budget == 0 || name !in filters
    {
      ok := budget > 0 && name in filters;
      if budget > 0 { budget := budget - 1; }
      if ok {
        filters := filters - {name};
        churn := churn + 1;
      }
    }

    /** Creates or rewrites the service of one host; whether it is there is read off the list made at the start. */
    method SaveVirtualService(listed: Services, host: string, rules: seq<HttpRule>) returns (ok: bool)
      requires Clocked(services, clock)
      modifies `services, `clock, `budget, `churn
      ensures Clocked(services, clock) && old(clock) <= clock
      ensures !ok ==> services == old(services)
      ensures ok ==> Written(old(services), services, old(clock), host, rules)
      ensures ok ==> ListedAsIs(listed, old(services), host)
      ensures !ok ==> budget == 0 || !ListedAsIs(listed, services, host)
      ensures ServiceName(host) in listed || !ok ==> churn == old(churn)
    {
      var name := ServiceName(host);
      if name !in listed {
        ok := CreateService(name, [host], rules);
      } else {
        ok := UpdateService(name, listed[name].rev, [host], rules);
      }
    }

    method SaveHost(listed: Services, host: string, unsorted: seq<HttpRule>,
        ghost routes: seq<HttpRoute>, ghost old_: Services, ghost order: seq<string>, ghost rules: map<string, seq<HttpRule>>)
      returns (ok: bool, ghost rules': map<string, seq<HttpRule>>)
      requires IsListed(listed, old_) && Clocked(old_, clock) && Clocked(services, clock)
      requires unsorted == HostRules(routes, host) && host !in order
      requires Progress(old_, services, routes, order, rules)
      modifies `services, `clock, `budget, `churn
      ensures Clocked(services, clock) && old(clock) <= clock
      ensures SortedRules(rules', routes) && rules'.Keys == Elements(order) + {host}
      ensures if ok then Progress(old_, services, routes, order + [host], rules') else services == old(services)
      ensures !ok ==> budget == 0 || BlockedLast(old_, order + [host], rules')
      ensures ServiceName(host) in listed ==> churn == old(churn)
    {
      ContributedIsPrefixOnly(routes, host);
      var sorted := SortSlice(unsorted);
      rules' := rules[host := sorted];
      ghost var mid, before := services, clock;
      BlockedIff(old_, listed, mid, routes, order, rules, host, sorted);
      ok := SaveVirtualService(listed, host, sorted);
      if ok {
        SavedOne(old_, mid, services, before, routes, order, rules, host, sorted);
      }
    }

    /** Saves the hosts in some order, until one save fails. */
    method SaveAll(listed: Services, hostRules: map<string, seq<HttpRule>>, ghost routes: seq<HttpRoute>)
      returns (ok: bool, ghost done: set<string>, ghost order: seq<string>, ghost rules: map<string, seq<HttpRule>>)
      requires IsListed(listed, services) && Clocked(services, clock)
      requires forall h :: h in hostRules ==> hostRules[h] == HostRules(routes, h)
      modifies `services, `clock, `budget, `churn
      ensures Clocked(services, clock)
      ensures done <= hostRules.Keys && Saved(old(services), services, routes, done) && NoForeign(old(services), done)
      ensures Elements(order) <= hostRules.Keys && Distinct(order) && SortedRules(rules, routes)
      ensures ok ==> done == Elements(order) == hostRules.Keys && Passes(old(services), order, rules)
      ensures !ok ==> budget == 0 || BlockedLast(old(services), order, rules)
      ensures AllListed(listed.Keys, hostRules.Keys) ==> churn == old(churn)
    {
      var todo := hostRules.Keys;
      ghost var old_ := services;
      order, rules := [], map[];
      NoProgress(old_, routes);
      while todo != {}
        invariant todo <= hostRules.Keys && Enumerates(order, hostRules.Keys - todo)
        invariant Clocked(services, clock) && Clocked(old_, clock)
        invariant Progress(old_, services, routes, order, rules)
        invariant AllListed(listed.Keys, hostRules.Keys) ==> churn == old(churn)
        decreases |todo|
      {
        var host :| host in todo;
        assert host !in order;
        done := Elements(order);
        ghost var rules';
        ok, rules' := SaveHost(listed, host, hostRules[host], routes, old_, order, rules);
        OrderGrows(order, hostRules.Keys, todo, host);
        order, rules, todo := order + [host], rules', todo - {host};
        if !ok { return; }
      }
      done := Elements(order);
      OrderComplete(order, hostRules.Keys, todo);
      ok := true;
    }

    /** Creates the missing filters; unused are the listed filters no route asks for. */
    method CreateFilters(listed: set<string>, routes: seq<HttpRoute>) returns (ok: bool, unused: set<string>)
      requires forall n :: n in listed <==> n in filters && filters[n]
      modifies `filters, `budget, `churn
      ensures exists k :: 0 <= k <= |routes| && Requested(old(filters), filters, routes[..k])
      ensures ok ==> Requested(old(filters), filters, routes) && FiltersFeasible(old(filters), routes)
      ensures ok ==> forall n :: n in unused <==> n in listed && !Redirects(routes, n)
      ensures !ok ==> budget == 0 || !FiltersFeasible(old(filters), routes)
      ensures AllPresent(old(filters), routes) ==> churn == old(churn)
    {
      unused := listed;
      ghost var old_ := filters;
      for i := 0 to |routes|
        invariant Requested(old_, filters, routes[..i]) && FiltersFeasible(old_, routes[..i])
        invariant forall n :: n in unused <==> n in listed && !Redirects(routes[..i], n)
        invariant AllPresent(old_, routes) ==> churn == old(churn)
      {
        RedirectsStep(routes, i);
        FeasibleStep(old_, routes, i);
        ok, unused := RequestFilter(unused, routes[i], routes[..i], old_);
        if !ok {
          InfeasiblePrefix(old_, routes, i + 1);
          return;
        }
        assert routes[..i + 1] == routes[..i] + [routes[i]];
      }
      assert routes[..|routes|] == routes;
      ok := true;
    }

    method RequestFilter(listed: set<string>, route: HttpRoute, ghost routes: seq<HttpRoute>, ghost old_: Filters)
      returns (ok: bool, unused: set<string>)
      requires forall n :: n in listed <==> n in old_ && old_[n] && !Redirects(routes, n)
      requires Requested(old_, filters, routes) && FiltersFeasible(old_, routes)
      modifies `filters, `budget, `churn
      ensures Requested(old_, filters, if ok then routes + [route] else routes)
      ensures ok ==> Requestable(old_, routes, route)
      ensures ok ==> forall n :: n in unused <==> n in old_ && old_[n] && !Redirects(routes + [route], n)
      ensures !ok ==> budget == 0 || !Requestable(old_, routes, route)
      ensures route.httpRedirectToHttps && FilterName(route) in old_ ==> churn == old(churn)
      ensures !route.httpRedirectToHttps ==> churn == old(churn)
    {
      RedirectsOneMore(routes, route);
      ghost var mid := filters;
      ok, unused := true, listed;
      if route.httpRedirectToHttps {
        var name := FilterName(route);
        assert RequestedAt(old_, filters, routes, name);
        if name !in listed {
          ok := CreateFilter(name);
        } else {
          unused := listed - {name};
        }
      }
      if ok {
        forall n ensures RequestedAt(old_, filters, routes + [route], n) {
          assert RequestedAt(old_, mid, routes, n);
        }
      }
    }

    method DeleteFilters(unused: set<string>) returns (ok: bool, ghost gone: set<string>)
      requires unused <= filters.Keys
      modifies `filters, `budget, `churn
      ensures gone <= unused && filters == old(filters) - gone
      ensures if ok then gone == unused else budget == 0
      ensures unused == {} ==> churn == old(churn)
    {
      var todo := unused;
      gone := {};
      while todo != {}
        invariant todo <= unused && gone == unused - todo && filters == old(filters) - gone
        invariant unused == {} ==> churn == old(churn)
        decreases |todo|
      {
        var name :| name in todo;
        ok := DeleteFilter(name);
        if !ok { return; }
        todo, gone := todo - {name}, gone + {name};
      }
      ok := true;
    }

    /** Deletes every listed service whose listed host is routed no more, whatever it holds by now. */
    method DeleteOld(listed: Services, hosts: set<string>) returns (ok: bool, ghost gone: set<string>)
      requires listed.Keys <= services.Keys && Hosted(listed) && Clocked(services, clock)
      modifies `services, `budget, `churn
      ensures gone <= OldNames(listed, hosts) && services == old(services) - gone && Clocked(services, clock)
      ensures if ok then gone == OldNames(listed, hosts) else budget == 0
      ensures OldNames(listed, hosts) == {} ==> churn == old(churn)
    {
      var todo := listed.Keys;
      gone := {};
      while todo != {}
        invariant todo <= listed.Keys && gone == OldNames(listed, hosts) - todo && Clocked(services, clock)
        invariant services == old(services) - gone
        invariant OldNames(listed, hosts) == {} ==> churn == old(churn)
        decreases |todo|
      {
        var name :| name in todo;
        OldNamesStep(listed, hosts, todo, name);
        if listed[name].hosts[0] !in hosts {
          ok := DeleteService(name);
          if !ok { return; }
          gone := gone + {name};
        }
        todo := todo - {name};
      }
      ok := true;
    }

    /**
     One reconciliation; the lists read at its start change nothing and stand as one call. The order the hosts are
     saved in is any; given that order the run fails exactly for want of an answer, at a blocked save, or at a filter.
     */
    method Run(routes: seq<HttpRoute>) returns (ok: bool, ghost order: seq<string>, ghost rules: map<string, seq<HttpRule>>)
      requires Hosted(services) && Clocked(services, clock)
      modifies this
      ensures Hosted(services) && Clocked(services, clock)
      ensures Partial(old(services), services, routes) && FiltersPartial(old(filters), filters, routes)
      ensures Elements(order) <= RoutedHosts(routes) && Distinct(order) && SortedRules(rules, routes)
      ensures ok ==> Converged(old(services), services, routes) && FiltersConverged(old(filters), filters, routes)
      ensures ok ==> Elements(order) == RoutedHosts(routes) && Passes(old(services), order, rules)
      ensures ok ==> FiltersFeasible(old(filters), routes)
      ensures !ok ==>
        budget == 0 || BlockedLast(old(services), order, rules) || !FiltersFeasible(old(filters), routes)
      ensures Settled(old(services), old(filters), routes) ==> churn == old(churn)
    {
      ghost var s0 := services;
      order, rules := [], map[];
      ok := List();
      if !ok { return; }
      var listed := map n | n in services && services[n].managed :: services[n];
      var listedFilters := set n | n in filters && filters[n];
      StaleIsListed(s0, listed, routes);
      var hosts;
      ok, hosts, order, rules := SaveRouted(listed, routes);
      if !ok { return; }
      ghost var s1 := services;
      ok := FixFilters(listedFilters, routes);
      if !ok { return; }
      ghost var gone;
      ok, gone := DeleteOld(listed, hosts);
      SavedThenDeleted(s0, s1, routes, hosts, gone);
    }

    method SaveRouted(listed: Services, routes: seq<HttpRoute>)
      returns (ok: bool, hosts: set<string>, ghost order: seq<string>, ghost rules: map<string, seq<HttpRule>>)
      requires Hosted(services) && Clocked(services, clock) && IsListed(listed, services)
      modifies `services, `clock, `budget, `churn
      ensures Hosted(services) && Clocked(services, clock)
      ensures Partial(old(services), services, routes) && old(services).Keys <= services.Keys
      ensures Elements(order) <= RoutedHosts(routes) && Distinct(order) && SortedRules(rules, routes)
      ensures ok ==> hosts == RoutedHosts(routes) == Elements(order) && Saved(old(services), services, routes, hosts)
      ensures ok ==> NoForeign(old(services), hosts) && Passes(old(services), order, rules)
      ensures !ok ==> budget == 0 || BlockedLast(old(services), order, rules)
      ensures AllListed(listed.Keys, RoutedHosts(routes)) ==> churn == old(churn)
    {
      ghost var s0 := services;
      var hostRules := BuildHostRules(routes);
      hosts := hostRules.Keys;
      ghost var done;
      ok, done, order, rules := SaveAll(listed, hostRules, routes);
      SavedThenDeleted(s0, services, routes, done, {});
      assert services - {} == services;
      SavedKeepsNames(s0, services, routes, done);
    }

    method FixFilters(listed: set<string>, routes: seq<HttpRoute>) returns (ok: bool)
      requires forall n :: n in listed <==> n in filters && filters[n]
      modifies `filters, `budget, `churn
      ensures FiltersPartial(old(filters), filters, routes)
      ensures ok ==> FiltersConverged(old(filters), filters, routes) && FiltersFeasible(old(filters), routes)
      ensures !ok ==> budget == 0 || !FiltersFeasible(old(filters), routes)
      ensures (forall n :: Redirects(routes, n) <==> n in old(filters) && old(filters)[n]) ==> churn == old(churn)
    {
      ghost var f0 := filters;
      var unused;
      ghost var gone := {};
      ok, unused := CreateFilters(listed, routes);
      ghost var k :| 0 <= k <= |routes| && Requested(f0, filters, routes[..k]);
      RequestedIsPartial(f0, filters, routes, k);
      if !ok { return; }
      ghost var f1 := filters;
      forall n | n in unused ensures n in filters {
        assert RequestedAt(f0, f1, routes, n);
      }
      ok, gone := DeleteFilters(unused);
      RequestedThenDeleted(f0, f1, routes, gone);
    }
  }

  function OldNames(listed: Services, hosts: set<string>): set<string>
    requires Hosted(listed)
  {
    set n | n in listed && listed[n].hosts[0] !in hosts
  }

  lemma OldNamesStep(listed: Services, hosts: set<string>, todo: set<string>, name: string)
    requires Hosted(listed) && name in listed && name in todo
    ensures OldNames(listed, hosts) - (todo - {name}) ==
      if listed[name].hosts[0] !in hosts then OldNames(listed, hosts) - todo + {name}
      else OldNames(listed, hosts) - todo
    ensures listed[name].hosts[0] !in hosts ==> OldNames(listed, hosts) != {}
  {
    assert listed[name].hosts[0] !in hosts ==> name in OldNames(listed, hosts);
  }

  // ---- requesting filters ----

  ghost predicate RequestedAt(old_: Filters, new_: Filters, routes: seq<HttpRoute>, name: string) {
    && (name in new_ <==> name in old_ || Redirects(routes, name))
    && (name in old_ ==> new_[name] == old_[name])
    && (name in new_ && name !in old_ ==> new_[name])
  }

  ghost predicate Requested(old_: Filters, new_: Filters, routes: seq<HttpRoute>) {
    forall name :: RequestedAt(old_, new_, routes, name)
  }

  predicate Requestable(filters: Filters, routes: seq<HttpRoute>, route: HttpRoute) {
    route.httpRedirectToHttps ==>
      && !Redirects(routes, FilterName(route))
      && (FilterName(route) in filters ==> filters[FilterName(route)])
  }

  ghost predicate AllPresent(filters: Filters, routes: seq<HttpRoute>) {
    forall r :: r in routes && r.httpRedirectToHttps ==> FilterName(r) in filters
  }

  lemma RedirectsOneMore(routes: seq<HttpRoute>, route: HttpRoute)
    ensures forall n ::
      (Redirects(routes + [route], n) <==> Redirects(routes, n) || (route.httpRedirectToHttps && FilterName(route) == n))
  {
    forall n ensures Redirects(routes + [route], n)
      <==> Redirects(routes, n) || (route.httpRedirectToHttps && FilterName(route) == n)
    {
      if Redirects(routes, n) {
        var r :| r in routes && r.httpRedirectToHttps && FilterName(r) == n;
        assert r in routes + [route];
      }
      assert route in routes + [route];
    }
  }

  lemma RedirectsStep(routes: seq<HttpRoute>, i: nat)
    requires i < |routes|
    ensures forall n ::
      (Redirects(routes[..i + 1], n)
      <==> Redirects(routes[..i], n) || (routes[i].httpRedirectToHttps && FilterName(routes[i]) == n))
  {
    RedirectsOneMore(routes[..i], routes[i]);
    assert routes[..i + 1] == routes[..i] + [routes[i]];
  }

  lemma FeasibleStep(filters: Filters, routes: seq<HttpRoute>, i: nat)
    requires i < |routes| && FiltersFeasible(filters, routes[..i])
    ensures FiltersFeasible(filters, routes[..i + 1]) <==> Requestable(filters, routes[..i], routes[i])
  {
    var few, many := routes[..i], routes[..i + 1];
    assert many[i] == routes[i];
    if Redirects(few, FilterName(routes[i])) && routes[i].httpRedirectToHttps {
      var r :| r in few && r.httpRedirectToHttps && FilterName(r) == FilterName(routes[i]);
      var j :| 0 <= j < i && few[j] == r;
      assert many[j] == r;
    }
    if Requestable(filters, few, routes[i]) {
      assert forall r :: r in many ==> r in few || r == routes[i];
      forall a, b | 0 <= a < b <= i && many[a].httpRedirectToHttps && many[b].httpRedirectToHttps
        ensures FilterName(many[a]) != FilterName(many[b])
      {
        assert few[a] == many[a] && few[a] in few;
        if b < i { assert few[b] == many[b]; }
      }
    }
  }

  lemma InfeasiblePrefix(filters: Filters, routes: seq<HttpRoute>, i: nat)
    requires i <= |routes|
    ensures FiltersFeasible(filters, routes) ==> FiltersFeasible(filters, routes[..i])
  {
    assert forall k :: 0 <= k < i ==> routes[..i][k] == routes[k];
  }

  ghost predicate AllListed(listed: set<string>, hosts: set<string>) {
    forall h :: h in hosts ==> ServiceName(h) in listed
  }

  // ---- saving ----

  ghost predicate SavedAt(old_: Services, new_: Services, routes: seq<HttpRoute>, done: set<string>, name: string) {
    if NamesHost(done, name) then name in new_ && ForSomeHost(new_[name], routes, done, name)
    else Same(old_, new_, name)
  }

  ghost predicate Saved(old_: Services, new_: Services, routes: seq<HttpRoute>, done: set<string>) {
    forall name :: SavedAt(old_, new_, routes, done, name)
  }

  /** The managed services as they were read at the start. */
  ghost predicate IsListed(listed: Services, services: Services) {
    forall n :: (n in listed <==> n in services && services[n].managed) && (n in listed ==> listed[n] == services[n])
  }

  /** What the list says about the host's service still holds. */
  ghost predicate ListedAsIs(listed: Services, services: Services, host: string) {
    var name := ServiceName(host);
    && (name in listed <==> name in services)
    && (name in listed ==> name in services && services[name].rev == listed[name].rev)
  }

  /** The write: nothing if nothing changes, else a service of a new revision. */
  ghost predicate Written(before: Services, after: Services, clock: nat, host: string, rules: seq<HttpRule>) {
    var name := ServiceName(host);
    && name in after && after == before[name := after[name]]
    && after[name].managed && after[name].hosts == [host] && after[name].http == rules
    && if name in before && before[name].managed && before[name].hosts == [host] && before[name].http == rules
       then after[name] == before[name]
       else after[name].rev > clock
  }

  /** A listed service has its revision still exactly when every host saved under its name left it as it was. */
  ghost predicate TrackedAt(old_: Services, now: Services, order: seq<string>, rules: map<string, seq<HttpRule>>, name: string) {
    name in old_ && old_[name].managed ==>
      && name in now
      && (now[name].rev == old_[name].rev ==> now[name] == old_[name])
      && (now[name].rev == old_[name].rev <==> forall h :: h in order && ServiceName(h) == name ==> Keeps(old_, rules, h))
  }

  ghost predicate Progress(old_: Services, now: Services, routes: seq<HttpRoute>, order: seq<string>,
      rules: map<string, seq<HttpRule>>)
  {
    && Saved(old_, now, routes, Elements(order)) && NoForeign(old_, Elements(order))
    && (forall name :: TrackedAt(old_, now, order, rules, name))
    && rules.Keys == Elements(order) && SortedRules(rules, routes) && Passes(old_, order, rules)
  }

  lemma OrderGrows(order: seq<string>, hosts: set<string>, todo: set<string>, host: string)
    requires Enumerates(order, hosts - todo) && host in todo && todo <= hosts
    ensures Enumerates(order + [host], hosts - (todo - {host}))
    ensures Elements(order) <= hosts && Elements(order + [host]) <= hosts && Distinct(order + [host])
  {
    EnumeratesAdd(order, hosts - todo, host);
    assert hosts - todo + {host} == hosts - (todo - {host});
  }

  lemma OrderComplete(order: seq<string>, hosts: set<string>, todo: set<string>)
    requires Enumerates(order, hosts - todo) && todo == {}
    ensures Elements(order) == hosts && Distinct(order)
  {
  }

  lemma NoProgress(services: Services, routes: seq<HttpRoute>)
    ensures Progress(services, services, routes, [], map[])
  {
  }

  /** Whether one more save goes through is decided by the state at the start and the hosts before it. */
  lemma BlockedIff(old_: Services, listed: Services, mid: Services, routes: seq<HttpRoute>, order: seq<string>,
      rules: map<string, seq<HttpRule>>, host: string, sorted: seq<HttpRule>)
    requires IsListed(listed, old_) && Progress(old_, mid, routes, order, rules) && host !in order
    ensures ListedAsIs(listed, mid, host) <==> !BlockedLast(old_, order + [host], rules[host := sorted])
  {
    var name, more, rules' := ServiceName(host), order + [host], rules[host := sorted];
    assert SavedAt(old_, mid, routes, Elements(order), name) && TrackedAt(old_, mid, order, rules, name);
    forall h | h in order ensures Keeps(old_, rules', h) <==> Keeps(old_, rules, h) {
    }
    if h :| h in order && ServiceName(h) == name && !Keeps(old_, rules, h) {
      var j :| 0 <= j < |order| && order[j] == h;
      assert more[j] == h && !Keeps(old_, rules', more[j]);
    }
    if j :| 0 <= j < |order| && ServiceName(more[j]) == name && !Keeps(old_, rules', more[j]) {
      assert more[j] == order[j] && order[j] in order;
    }
  }

  lemma SavedOne(old_: Services, mid: Services, new_: Services, clock: nat, routes: seq<HttpRoute>, order: seq<string>,
      rules: map<string, seq<HttpRule>>, host: string, sorted: seq<HttpRule>)
    requires Progress(old_, mid, routes, order, rules) && host !in order && Clocked(old_, clock)
    requires Written(mid, new_, clock, host, sorted) && Compiled(sorted, routes, host)
    requires !BlockedLast(old_, order + [host], rules[host := sorted])
    ensures Progress(old_, new_, routes, order + [host], rules[host := sorted])
  {
    var more, rules' := order + [host], rules[host := sorted];
    assert Elements(more) == Elements(order) + {host};
    SavedMore(old_, mid, new_, routes, Elements(order), host);
    PassesMore(old_, order, rules, host, sorted);
    forall name ensures TrackedAt(old_, new_, more, rules', name) {
      TrackedMore(old_, mid, new_, clock, routes, order, rules, host, sorted, name);
    }
  }

  lemma SavedMore(old_: Services, mid: Services, new_: Services, routes: seq<HttpRoute>, done: set<string>, host: string)
    requires Saved(old_, mid, routes, done)
    requires ServiceName(host) in new_ && new_ == mid[ServiceName(host) := new_[ServiceName(host)]]
    requires ServiceFor(new_[ServiceName(host)], routes, host)
    ensures Saved(old_, new_, routes, done + {host})
  {
    forall name ensures SavedAt(old_, new_, routes, done + {host}, name) {
      assert SavedAt(old_, mid, routes, done, name);
      if name == ServiceName(host) {
        assert host in done + {host};
      } else if NamesHost(done, name) {
        var h :| h in done && ServiceName(h) == name && ServiceFor(mid[name], routes, h);
        assert h in done + {host};
      }
    }
  }

  lemma PassesMore(old_: Services, order: seq<string>, rules: map<string, seq<HttpRule>>, host: string, sorted: seq<HttpRule>)
    requires Passes(old_, order, rules) && host !in order && rules.Keys == Elements(order)
    requires NoForeign(old_, Elements(order)) && !BlockedLast(old_, order + [host], rules[host := sorted])
    ensures Passes(old_, order + [host], rules[host := sorted])
    ensures NoForeign(old_, Elements(order) + {host})
  {
    var more, rules' := order + [host], rules[host := sorted];
    assert !Blocked(old_, more, rules', |more| - 1);
    forall k | 0 <= k < |order| ensures !Blocked(old_, more, rules', k) {
      assert !Blocked(old_, order, rules, k) && more[k] == order[k];
      forall j | 0 <= j < k && ServiceName(more[j]) == ServiceName(more[k]) ensures Keeps(old_, rules', more[j]) {
        assert more[j] == order[j] && order[j] in order && Keeps(old_, rules, order[j]);
      }
    }
  }

  lemma TrackedMore(old_: Services, mid: Services, new_: Services, clock: nat, routes: seq<HttpRoute>, order: seq<string>,
      rules: map<string, seq<HttpRule>>, host: string, sorted: seq<HttpRule>, name: string)
    requires TrackedAt(old_, mid, order, rules, name) && host !in order && Clocked(old_, clock)
    requires Written(mid, new_, clock, host, sorted)
    requires !BlockedLast(old_, order + [host], rules[host := sorted])
    ensures TrackedAt(old_, new_, order + [host], rules[host := sorted], name)
  {
    var more, rules' := order + [host], rules[host := sorted];
    forall h | h in order ensures h in more && (Keeps(old_, rules', h) <==> Keeps(old_, rules, h)) {
      var j :| 0 <= j < |order| && order[j] == h;
      assert more[j] == h;
    }
    assert forall h :: h in more ==> h in order || h == host;
    assert more[|order|] == host && host in more;
    if name == ServiceName(host) && name in old_ {
      forall h | h in order && ServiceName(h) == name ensures Keeps(old_, rules, h) {
        var j :| 0 <= j < |order| && order[j] == h;
        assert more[j] == h;
        assert Keeps(old_, rules', more[j]);
      }
    }
  }

  // ---- putting the phases together ----

  lemma SavedThenDeleted(s0: Services, s1: Services, routes: seq<HttpRoute>, done: set<string>, gone: set<string>)
    requires Hosted(s0) && done <= RoutedHosts(routes)
    requires Saved(s0, s1, routes, done) && NoForeign(s0, done)
    requires forall n :: n in gone ==> Stale(s0, routes, n)
    ensures Hosted(s1 - gone) && Partial(s0, s1 - gone, routes)
    ensures done == RoutedHosts(routes) && (forall n :: Stale(s0, routes, n) ==> n in gone) ==>
      Converged(s0, s1 - gone, routes)
  {
    forall name
      ensures PartialAt(s0, s1 - gone, routes, name)
      ensures name in s1 ==> s1[name].hosts != []
      ensures done == RoutedHosts(routes) && (Stale(s0, routes, name) ==> name in gone) ==>
        ConvergedAt(s0, s1 - gone, routes, name)
    {
      assert SavedAt(s0, s1, routes, done, name);
      if NamesHost(done, name) {
        SavedForSomeHost(s1, routes, done, name);
      }
    }
  }

  lemma SavedKeepsNames(s0: Services, s1: Services, routes: seq<HttpRoute>, done: set<string>)
    requires Saved(s0, s1, routes, done)
    ensures s0.Keys <= s1.Keys
  {
    forall n | n in s0 ensures n in s1 {
      assert SavedAt(s0, s1, routes, done, n);
    }
  }

  lemma SavedForSomeHost(services: Services, routes: seq<HttpRoute>, done: set<string>, name: string)
    requires done <= RoutedHosts(routes) && name in services && ForSomeHost(services[name], routes, done, name)
    ensures ForSomeHost(services[name], routes, RoutedHosts(routes), name) && services[name].hosts != []
  {
  }

  lemma StaleIsListed(services: Services, listed: Services, routes: seq<HttpRoute>)
    requires Hosted(services) && listed == map n | n in services && services[n].managed :: services[n]
    ensures Hosted(listed)
    ensures forall n :: n in OldNames(listed, RoutedHosts(routes)) <==> Stale(services, routes, n)
  {
  }

  lemma RequestedIsPartial(f0: Filters, f1: Filters, routes: seq<HttpRoute>, k: nat)
    requires k <= |routes| && Requested(f0, f1, routes[..k])
    ensures FiltersPartial(f0, f1, routes)
  {
    forall name ensures FilterPartialAt(f0, f1, routes, name) {
      assert RequestedAt(f0, f1, routes[..k], name);
    }
  }

  lemma RequestedThenDeleted(f0: Filters, f1: Filters, routes: seq<HttpRoute>, gone: set<string>)
    requires Requested(f0, f1, routes) && FiltersFeasible(f0, routes)
    requires forall n :: n in gone ==> n in f0 && f0[n] && !Redirects(routes, n)
    ensures FiltersPartial(f0, f1 - gone, routes)
    ensures (forall n :: n in f0 && f0[n] && !Redirects(routes, n) ==> n in gone) ==>
      FiltersConverged(f0, f1 - gone, routes)
  {
    forall name ensures FilterPartialAt(f0, f1 - gone, routes, name) {
      assert RequestedAt(f0, f1, routes, name);
    }
    forall name ensures
      (name in f0 && f0[name] && !Redirects(routes, name) ==> name in gone) ==>
        FilterConvergedAt(f0, f1 - gone, routes, name)
    {
      assert RequestedAt(f0, f1, routes, name);
    }
  }
}
