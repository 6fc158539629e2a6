/** The one namespace name the policy scheme cannot tell apart: a namespace called "cluster" is read as the cluster. */
module RbacCluster {
  import opened Base
  import opened Rbac
  import opened RbacCompiler
  import opened RbacCorrect

  function Promoted(b: RoleBinding): RoleBinding {
    if b.ns == CLUSTER then b.(role := InCluster(b.role.level)) else b
  }

  /** The same objects with every role bound in that namespace taken for the cluster role. */
  ghost function PromotedLive(live: Live): Live {
    live.(bindings := set b | b in live.bindings :: Promoted(b))
  }

  ghost function Outside(live: Live): Live {
    PromotedLive(live).(namespaces := set n | n in live.namespaces && n.name != CLUSTER)
  }

  lemma OutsideIsGood(live: Live)
    requires NamespacesNamed(live)
    ensures GoodNames(Outside(live))
  {
  }

  // ---- the lines such a namespace adds grant nothing new ----

  lemma SameBindingPolicies(live: Live, now: int)
    ensures BindingPolicies(live.bindings, now) == BindingPolicies(Outside(live).bindings, now)
  {
    forall b | b in live.bindings
      ensures PolicyFromBinding(Promoted(b)) == PolicyFromBinding(b) && Promoted(b) in PromotedLive(live).bindings
    {
    }
  }

  lemma LinesAdded(live: Live, now: int, line: Line)
    ensures line in Compile(Outside(live), now) ==> line in Compile(live, now)
    ensures line in Compile(live, now) ==>
      line in Compile(Outside(live), now) || line in RolePoliciesForNamespace(CLUSTER)
  {
    SameBindingPolicies(live, now);
    if line in NamespacePolicies(live.namespaces) {
      var n :| n in live.namespaces && IsEnabled(n) && line in RolePoliciesForNamespace(n.name);
      assert n.name != CLUSTER ==> n in Outside(live).namespaces;
    }
  }

  lemma SameMembers(live: Live, now: int, a: string, b: string)
    ensures Member(a, b) in Compile(live, now) <==> Member(a, b) in Compile(Outside(live), now)
  {
    LinesAdded(live, now, Member(a, b));
    assert Member(a, b) in RolePoliciesForNamespace(CLUSTER) ==> Member(a, b) in ClusterRolePolicies();
  }

  lemma {:induction false} SameRoles(x: set<Line>, y: set<Line>, sub: string, role: string, level: nat)
    requires forall a, b :: Member(a, b) in x <==> Member(a, b) in y
    ensures HasRole(x, sub, role, level) <==> HasRole(y, sub, role, level)
    decreases level
  {
    if level > 0 {
      var k: nat := level - 1;
      forall via ensures HasRole(x, via, role, k) <==> HasRole(y, via, role, k) {
        SameRoles(x, y, via, role, k);
      }
    }
  }

  lemma SameLinks(live: Live, now: int, sub: string, role: string)
    ensures HasLink(Compile(live, now), sub, role) <==> HasLink(Compile(Outside(live), now), sub, role)
  {
    forall a, b ensures Member(a, b) in Compile(live, now) <==> Member(a, b) in Compile(Outside(live), now) {
      SameMembers(live, now, a, b);
    }
    SameRoles(Compile(live, now), Compile(Outside(live), now), sub, role, MAX_HIERARCHY_LEVEL);
  }

  lemma AddedGrantsNothing(live: Live, now: int, line: Line, sub: string, act: string, scope: string, obj: string)
    requires NamespacesNamed(live) && IsSafeSubject(sub) && line in RolePoliciesForNamespace(CLUSTER)
    requires Grants(Compile(live, now), line, sub, act, scope, obj)
    ensures Allowed(Outside(live), now, sub, act, scope, obj)
  {
    var outside := Outside(live);
    OutsideIsGood(live);
    ClusterHasNoUpper();
    var level: Level :| line.sub == RoleName(CLUSTER, level) && (act == VIEW || act == Act(level));
    SameLinks(live, now, sub, line.sub);
    LinkToRole(outside, now, sub, CLUSTER, level);
    var b :| Gives(outside, now, b, sub, CLUSTER, level);
    assert Rank(Viewer) <= Rank(b.role.level) && Act(Viewer) == VIEW;
    assert BindingAllows(outside, now, b, sub, act, scope, obj);
  }

  lemma SameDecisions(live: Live, now: int, sub: string, act: string, scope: string, obj: string)
    requires NamespacesNamed(live) && IsSafeSubject(sub)
    ensures Enforce(Compile(live, now), sub, act, scope, obj) <==> Allowed(Outside(live), now, sub, act, scope, obj)
  {
    var outside := Outside(live);
    OutsideIsGood(live);
    CompilerIsCorrect(outside, now, sub, act, scope, obj);
    if line :| Grants(Compile(live, now), line, sub, act, scope, obj) {
      LinesAdded(live, now, line);
      if line in Compile(outside, now) {
        SameLinks(live, now, sub, line.sub);
        assert Grants(Compile(outside, now), line, sub, act, scope, obj);
      } else {
        AddedGrantsNothing(live, now, line, sub, act, scope, obj);
      }
    }
    if line :| Grants(Compile(outside, now), line, sub, act, scope, obj) {
      LinesAdded(live, now, line);
      SameLinks(live, now, sub, line.sub);
      assert Grants(Compile(live, now), line, sub, act, scope, obj);
    }
  }

  lemma OutsideAllowsTheSame(live: Live, now: int, sub: string, act: string, scope: string, obj: string)
    ensures Allowed(Outside(live), now, sub, act, scope, obj) <==> Allowed(PromotedLive(live), now, sub, act, scope, obj)
  {
    var outside, promoted := Outside(live), PromotedLive(live);
    forall b | b in promoted.bindings
      ensures RoleAllows(outside, b.role, b.ns, act, scope, obj) <==> RoleAllows(promoted, b.role, b.ns, act, scope, obj)
    {
      assert b.role.InNamespace? ==> b.ns != CLUSTER;
      if EnabledNamespace(promoted, b.ns) && b.role.InNamespace? {
        var n :| n in promoted.namespaces && IsEnabled(n) && n.name == b.ns;
        assert n in outside.namespaces;
      }
    }
    if b :| BindingAllows(outside, now, b, sub, act, scope, obj) {
      assert BindingAllows(promoted, now, b, sub, act, scope, obj);
    }
    if b :| BindingAllows(promoted, now, b, sub, act, scope, obj) {
      assert BindingAllows(outside, now, b, sub, act, scope, obj);
    }
    if t, r :| TokenAllows(outside, now, t, r, sub, act, scope, obj) {
      assert TokenAllows(promoted, now, t, r, sub, act, scope, obj);
    }
    if t, r :| TokenAllows(promoted, now, t, r, sub, act, scope, obj) {
      assert TokenAllows(outside, now, t, r, sub, act, scope, obj);
    }
  }

  /**
   Whether or not there is a namespace called "cluster", enabled or not: the compiled policies decide as if every
   role bound in it were the cluster role.
   */
  lemma ClusterNamespaceMeansCluster(live: Live, now: int, sub: string, act: string, scope: string, obj: string)
    requires NamespacesNamed(live) && IsSafeSubject(sub)
    ensures Enforce(Compile(live, now), sub, act, scope, obj) <==> Allowed(PromotedLive(live), now, sub, act, scope, obj)
  {
    SameDecisions(live, now, sub, act, scope, obj);
    OutsideAllowsTheSame(live, now, sub, act, scope, obj);
  }

  // ---- when that makes no difference ----

  /** The subject may do this to everything everywhere by something other than a role bound in that namespace. */
  ghost predicate Covered(live: Live, now: int, sub: string, level: Level) {
    || (exists b :: CoversAsRole(live, now, b, sub, level))
    || (exists t, r :: CoversAsRule(live, now, t, r, sub, level))
  }

  ghost predicate CoversAsRole(live: Live, now: int, b: RoleBinding, sub: string, level: Level) {
    && b in live.bindings && !Expired(b.expiredAt, now) && SafeSubject(b.subject, b.subjectType) == sub
    && b.role.InCluster? && Rank(level) <= Rank(b.role.level)
  }

  ghost predicate CoversAsRule(live: Live, now: int, t: AccessToken, r: Rule, sub: string, level: Level) {
    && t in live.tokens && !Expired(t.expiredAt, now) && r in t.rules && SafeSubject(t.name, User) == sub
    && r.verb == Act(level) && r.ns == ALL && "*" <= RuleObject(r)
  }

  /** A role in the namespace that is taken for more than it is. */
  ghost predicate BoundInCluster(live: Live, now: int, b: RoleBinding) {
    b in live.bindings && !Expired(b.expiredAt, now) && b.role.InNamespace? && b.ns == CLUSTER
  }

  ghost predicate AllCovered(live: Live, now: int) {
    forall b, level: Level :: BoundInCluster(live, now, b) && Rank(level) <= Rank(b.role.level) ==>
      Covered(live, now, SafeSubject(b.subject, b.subjectType), level)
  }

  ghost predicate Agrees(live: Live, now: int, sub: string, act: string, scope: string, obj: string) {
    Enforce(Compile(live, now), sub, act, scope, obj) <==> Allowed(live, now, sub, act, scope, obj)
  }

  ghost predicate AgreesAlways(live: Live, now: int) {
    forall sub, act, scope, obj :: IsSafeSubject(sub) ==> Agrees(live, now, sub, act, scope, obj)
  }

  lemma StarMatchesAll(obj: string, pattern: string)
    requires "*" <= pattern
    ensures ObjMatch(obj, pattern)
  {
  }

  lemma CoveredAllows(live: Live, now: int, sub: string, level: Level, scope: string, obj: string)
    requires Covered(live, now, sub, level)
    ensures Allowed(live, now, sub, Act(level), scope, obj)
  {
    if b :| CoversAsRole(live, now, b, sub, level) {
      assert BindingAllows(live, now, b, sub, Act(level), scope, obj);
    } else {
      var t, r :| CoversAsRule(live, now, t, r, sub, level);
      StarMatchesAll(obj, RuleObject(r));
      assert TokenAllows(live, now, t, r, sub, Act(level), scope, obj);
    }
  }

  /** A scope no binding and no rule names. */
  lemma FreshScope(live: Live) returns (scope: string)
    ensures forall b :: b in live.bindings ==> b.ns != scope
    ensures forall t, r :: t in live.tokens && r in t.rules ==> r.ns != scope
  {
    var named := (set b | b in live.bindings :: b.ns) + (set t, r | t in live.tokens && r in t.rules :: r.ns);
    var n := LongerThanAll(named);
    scope := seq(n, _ => 'x');
    assert |scope| == n;
  }

  lemma {:induction false} LongerThanAll(names: set<string>) returns (n: nat)
    ensures forall s :: s in names ==> |s| < n
  {
    n := 0;
    if names != {} {
      var s :| s in names;
      var m := LongerThanAll(names - {s});
      n := if m > |s| then m else |s| + 1;
    }
  }

  lemma NoneMatchesEmpty(r: Rule)
    requires ObjMatch("", RuleObject(r))
    ensures "*" <= RuleObject(r)
  {
    var pattern := RuleObject(r);
    if pattern != ALL {
      assert '/' in r.kind + "/" + r.name by { assert (r.kind + "/" + r.name)[|r.kind|] == '/'; }
    }
    ObjMatchMeaning("", pattern);
  }

  /** Whoever may do something far from every name given may do it everywhere. */
  lemma FarAwayIsCovered(live: Live, now: int, sub: string, level: Level, scope: string)
    requires Allowed(live, now, sub, Act(level), scope, "")
    requires forall b :: b in live.bindings ==> b.ns != scope
    requires forall t, r :: t in live.tokens && r in t.rules ==> r.ns != scope
    ensures Covered(live, now, sub, level)
  {
    if b :| BindingAllows(live, now, b, sub, Act(level), scope, "") {
      var l: Level :| Rank(l) <= Rank(b.role.level) && Act(level) == Act(l);
      assert CoversAsRole(live, now, b, sub, level);
    } else {
      var t, r :| TokenAllows(live, now, t, r, sub, Act(level), scope, "");
      NoneMatchesEmpty(r);
      assert CoversAsRule(live, now, t, r, sub, level);
    }
  }

  /** A role bound in the namespace always gets the cluster role's rights. */
  lemma PromotedIsGranted(live: Live, now: int, b: RoleBinding, level: Level, scope: string, obj: string)
    requires NamespacesNamed(live) && BoundInCluster(live, now, b) && Rank(level) <= Rank(b.role.level)
    ensures Enforce(Compile(live, now), SafeSubject(b.subject, b.subjectType), Act(level), scope, obj)
  {
    var sub := SafeSubject(b.subject, b.subjectType);
    assert Promoted(b) in PromotedLive(live).bindings;
    assert BindingAllows(PromotedLive(live), now, Promoted(b), sub, Act(level), scope, obj);
    ClusterNamespaceMeansCluster(live, now, sub, Act(level), scope, obj);
  }

  lemma DirectIsGranted(live: Live, now: int, sub: string, act: string, scope: string, obj: string)
    requires Allowed(live, now, sub, act, scope, obj)
    ensures Allowed(PromotedLive(live), now, sub, act, scope, obj)
  {
    if b :| BindingAllows(live, now, b, sub, act, scope, obj) {
      var p := Promoted(b);
      assert p in PromotedLive(live).bindings;
      if b.ns == CLUSTER && b.role.InNamespace? && act == VIEW {
        assert Rank(Viewer) <= Rank(p.role.level) && Act(Viewer) == VIEW;
      }
      assert BindingAllows(PromotedLive(live), now, p, sub, act, scope, obj);
    } else {
      var t, r :| TokenAllows(live, now, t, r, sub, act, scope, obj);
      assert TokenAllows(PromotedLive(live), now, t, r, sub, act, scope, obj);
    }
  }

  lemma CoveredAgrees(live: Live, now: int, sub: string, act: string, scope: string, obj: string)
    requires NamespacesNamed(live) && AllCovered(live, now) && IsSafeSubject(sub)
    ensures Agrees(live, now, sub, act, scope, obj)
  {
    var promoted := PromotedLive(live);
    ClusterNamespaceMeansCluster(live, now, sub, act, scope, obj);
    if Allowed(live, now, sub, act, scope, obj) {
      DirectIsGranted(live, now, sub, act, scope, obj);
    }
    if p :| BindingAllows(promoted, now, p, sub, act, scope, obj) {
      var b :| b in live.bindings && p == Promoted(b);
      if BoundInCluster(live, now, b) {
        var l: Level :| Rank(l) <= Rank(b.role.level) && act == Act(l);
        CoveredAllows(live, now, sub, l, scope, obj);
      } else {
        assert BindingAllows(live, now, b, sub, act, scope, obj);
      }
    } else if t, r :| TokenAllows(promoted, now, t, r, sub, act, scope, obj) {
      assert TokenAllows(live, now, t, r, sub, act, scope, obj);
    }
  }

  /**
   The compiled policies decide every request as the objects read directly if and only if every role bound in a
   namespace called "cluster" gives its subject nothing it does not have for the whole cluster anyway, level by
   level: by a cluster role, or by a token rule for that verb in every namespace on every object.
   */
  lemma ClusterReadingIsExactIff(live: Live, now: int)
    requires NamespacesNamed(live)
    ensures AgreesAlways(live, now) <==> AllCovered(live, now)
  {
    if AllCovered(live, now) {
      forall sub, act, scope, obj | IsSafeSubject(sub) ensures Agrees(live, now, sub, act, scope, obj) {
        CoveredAgrees(live, now, sub, act, scope, obj);
      }
    }
    if AgreesAlways(live, now) {
      forall b, level: Level | BoundInCluster(live, now, b) && Rank(level) <= Rank(b.role.level)
        ensures Covered(live, now, SafeSubject(b.subject, b.subjectType), level)
      {
        var sub := SafeSubject(b.subject, b.subjectType);
        var scope := FreshScope(live);
        PromotedIsGranted(live, now, b, level, scope, "");
        assert Agrees(live, now, sub, Act(level), scope, "");
        FarAwayIsCovered(live, now, sub, level, scope);
      }
    }
  }

  /** Whoever is viewer of an enabled namespace called "cluster", and nothing else, may look at everything. */
  lemma ViewerOfClusterSeesAll(n: Namespace, b: RoleBinding, scope: string, obj: string)
    requires n.name == CLUSTER && IsEnabled(n)
    requires b.ns == CLUSTER && b.role == InNamespace(Viewer) && b.expiredAt.None?
    ensures
      var live, sub := Live({n}, {}, {b}), SafeSubject(b.subject, b.subjectType);
      && Enforce(Compile(live, 0), sub, VIEW, scope, obj)
      && (Allowed(live, 0, sub, VIEW, scope, obj) ==> scope == CLUSTER || obj == "storageClasses")
  {
    var live, sub := Live({n}, {}, {b}), SafeSubject(b.subject, b.subjectType);
    PromotedIsGranted(live, 0, b, Viewer, scope, obj);
    if b' :| BindingAllows(live, 0, b', sub, VIEW, scope, obj) {
      assert b' == b;
    }
  }
}
