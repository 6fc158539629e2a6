/** The compiled policies decide every request as the direct reading of the live objects does. */
module RbacCorrect {
  import opened Base
  import opened PolicyText
  import opened Rbac
  import opened RbacCompiler

  ghost predicate HasPolicies(live: Live, ns: string) {
    ns == CLUSTER || EnabledNamespace(live, ns)
  }

  function PoliciesOf(ns: string): seq<Line> {
    if ns == CLUSTER then ClusterRolePolicies() else RolePoliciesForNamespace(ns)
  }

  function NsOf(b: RoleBinding): string {
    if b.role.InCluster? then CLUSTER else b.ns
  }

  predicate NoUpper(ns: string) {
    forall c :: c in ns ==> !IsUpper(c)
  }

  // ---- which lines there are ----

  lemma ClusterHasNoUpper()
    ensures NoUpper(CLUSTER)
  {
  }

  lemma CompiledLine(live: Live, now: int, line: Line)
    requires GoodNames(live)
    ensures line in Compile(live, now) <==>
      || (exists ns :: HasPolicies(live, ns) && NoUpper(ns) && line in PoliciesOf(ns))
      || (exists t, r :: t in live.tokens && !Expired(t.expiredAt, now) && r in t.rules && line == PolicyFromRule(t.name, r))
      || (exists b :: b in live.bindings && !Expired(b.expiredAt, now) && line == PolicyFromBinding(b))
  {
    ClusterHasNoUpper();
    if line in ClusterRolePolicies() {
      assert HasPolicies(live, CLUSTER) && line in PoliciesOf(CLUSTER);
    }
    forall n | n in live.namespaces && IsEnabled(n) && line in RolePoliciesForNamespace(n.name)
      ensures HasPolicies(live, n.name) && NoUpper(n.name) && line in PoliciesOf(n.name)
    {
    }
    if ns :| HasPolicies(live, ns) && NoUpper(ns) && line in PoliciesOf(ns) {
      if ns != CLUSTER {
        var n :| n in live.namespaces && IsEnabled(n) && n.name == ns;
        assert line in RolePoliciesForNamespace(n.name);
      }
    }
  }

  /** The level just below, if there is one. */
  predicate JustBelow(level: Level, lower: Level) {
    (level == Editor && lower == Viewer) || (level == Owner && lower == Editor)
  }

  lemma InheritanceLine(ns: string, level: Level, ns': string, via: string)
    requires NoUpper(ns) && NoUpper(ns')
    ensures Member(RoleName(ns, level), via) in PoliciesOf(ns') <==>
      ns' == ns && exists lower :: JustBelow(level, lower) && via == RoleName(ns, lower)
  {
    RoleNameInjective(ns, level, ns', Editor);
    RoleNameInjective(ns, level, ns', Owner);
    assert Member(RoleName(ns, level), via) in PoliciesOf(ns') <==> Member(RoleName(ns, level), via) in Inheritance(ns');
    assert JustBelow(Editor, Viewer) && JustBelow(Owner, Editor);
  }

  /** The memberships of a role name: the level just below it, when its policies are there at all. */
  lemma MemberOfRole(live: Live, now: int, ns: string, level: Level, via: string)
    requires GoodNames(live) && NoUpper(ns)
    ensures Member(RoleName(ns, level), via) in Compile(live, now) <==>
      HasPolicies(live, ns) && exists lower :: JustBelow(level, lower) && via == RoleName(ns, lower)
  {
    var line := Member(RoleName(ns, level), via);
    CompiledLine(live, now, line);
    forall b | b in live.bindings ensures line != PolicyFromBinding(b) {
      SafeSubjectsAreNoRoles(SafeSubject(b.subject, b.subjectType), ns, level);
    }
    forall ns' | NoUpper(ns') { InheritanceLine(ns, level, ns', via); }
  }

  lemma MemberOfSubject(live: Live, now: int, sub: string, via: string)
    requires GoodNames(live) && IsSafeSubject(sub)
    ensures Member(sub, via) in Compile(live, now) <==>
      exists b :: b in live.bindings && !Expired(b.expiredAt, now)
                  && SafeSubject(b.subject, b.subjectType) == sub && via == RoleName(NsOf(b), b.role.level)
  {
    var line := Member(sub, via);
    CompiledLine(live, now, line);
    forall ns { NoPolicyOfSubject(sub, via, ns); }
  }

  lemma NoPolicyOfSubject(sub: string, via: string, ns: string)
    requires IsSafeSubject(sub)
    ensures Member(sub, via) !in PoliciesOf(ns)
  {
    SafeSubjectsAreNoRoles(sub, ns, Editor);
    SafeSubjectsAreNoRoles(sub, ns, Owner);
  }

  // ---- reachability ----

  /** One membership down from a role name. */
  lemma StepDown(live: Live, now: int, ns: string, level: Level, lower: Level, role: string, k: nat)
    requires GoodNames(live) && NoUpper(ns) && JustBelow(level, lower) && k > 0
    ensures HasRole(Compile(live, now), RoleName(ns, level), role, k) <==>
      role == RoleName(ns, level) || (HasPolicies(live, ns) && HasRole(Compile(live, now), RoleName(ns, lower), role, k - 1))
  {
    var lines := Compile(live, now);
    MemberOfRole(live, now, ns, level, RoleName(ns, lower));
    if HasRole(lines, RoleName(ns, level), role, k) && role != RoleName(ns, level) {
      var via :| Member(RoleName(ns, level), via) in lines && HasRole(lines, via, role, k - 1);
      MemberOfRole(live, now, ns, level, via);
    }
  }

  lemma BottomRole(live: Live, now: int, ns: string, role: string, k: nat)
    requires GoodNames(live) && NoUpper(ns)
    ensures HasRole(Compile(live, now), RoleName(ns, Viewer), role, k) <==> role == RoleName(ns, Viewer)
  {
    forall via { MemberOfRole(live, now, ns, Viewer, via); }
  }

  ghost predicate AtOrBelow(live: Live, ns: string, level: Level, role: string) {
    exists l: Level :: role == RoleName(ns, l) && (l == level || (Rank(l) < Rank(level) && HasPolicies(live, ns)))
  }

  /** From a role name one reaches exactly the same role at the levels below. */
  lemma RolesBelow(live: Live, now: int, ns: string, level: Level, role: string, k: nat)
    requires GoodNames(live) && NoUpper(ns) && k >= Rank(level)
    ensures HasRole(Compile(live, now), RoleName(ns, level), role, k) <==> AtOrBelow(live, ns, level, role)
    decreases Rank(level)
  {
    match level
    case Viewer =>
      BottomRole(live, now, ns, role, k);
    case Editor =>
      StepDown(live, now, ns, Editor, Viewer, role, k);
      RolesBelow(live, now, ns, Viewer, role, k - 1);
    case Owner =>
      StepDown(live, now, ns, Owner, Editor, role, k);
      RolesBelow(live, now, ns, Editor, role, k - 1);
  }

  ghost predicate BoundAbove(live: Live, now: int, b: RoleBinding, sub: string, ns: string, level: Level) {
    && b in live.bindings && !Expired(b.expiredAt, now) && SafeSubject(b.subject, b.subjectType) == sub
    && NsOf(b) == ns && Rank(level) <= Rank(b.role.level)
  }

  /** The binding gives this very role, or a higher one in a place whose levels are chained. */
  ghost predicate Gives(live: Live, now: int, b: RoleBinding, sub: string, ns: string, level: Level) {
    BoundAbove(live, now, b, sub, ns, level) && (b.role.level == level || HasPolicies(live, ns))
  }

  /**
   A subject has a role exactly when a live binding gives it that role, or a higher one in the cluster or in an
   enabled namespace: elsewhere the levels are not chained.
   */
  lemma LinkToRole(live: Live, now: int, sub: string, ns: string, level: Level)
    requires GoodNames(live) && NoUpper(ns) && IsSafeSubject(sub)
    ensures HasLink(Compile(live, now), sub, RoleName(ns, level)) <==>
      exists b :: Gives(live, now, b, sub, ns, level)
  {
    var lines, role := Compile(live, now), RoleName(ns, level);
    if HasLink(lines, sub, role) {
      LinkHasBinding(live, now, sub, ns, level);
    }
    if b :| Gives(live, now, b, sub, ns, level) {
      BindingGivesLink(live, now, b, sub, ns, level);
    }
  }

  lemma BindingGivesLink(live: Live, now: int, b: RoleBinding, sub: string, ns: string, level: Level)
    requires GoodNames(live) && NoUpper(ns) && IsSafeSubject(sub)
    requires Gives(live, now, b, sub, ns, level)
    ensures HasLink(Compile(live, now), sub, RoleName(ns, level))
  {
    var via := RoleName(ns, b.role.level);
    MemberOfSubject(live, now, sub, via);
    assert b.role.level == level || Rank(level) < Rank(b.role.level);
    RolesBelow(live, now, ns, b.role.level, RoleName(ns, level), MAX_HIERARCHY_LEVEL - 1);
    assert HasRole(Compile(live, now), via, RoleName(ns, level), MAX_HIERARCHY_LEVEL - 1);
  }

  lemma LinkHasBinding(live: Live, now: int, sub: string, ns: string, level: Level)
    requires GoodNames(live) && NoUpper(ns) && IsSafeSubject(sub)
    requires HasLink(Compile(live, now), sub, RoleName(ns, level))
    ensures exists b :: Gives(live, now, b, sub, ns, level)
  {
    var lines, role := Compile(live, now), RoleName(ns, level);
    SafeSubjectsAreNoRoles(sub, ns, level);
    ClusterHasNoUpper();
    var via :| Member(sub, via) in lines && HasRole(lines, via, role, MAX_HIERARCHY_LEVEL - 1);
    MemberOfSubject(live, now, sub, via);
    var b :| b in live.bindings && !Expired(b.expiredAt, now)
             && SafeSubject(b.subject, b.subjectType) == sub && via == RoleName(NsOf(b), b.role.level);
    ReachedFromBinding(live, now, b, ns, level);
    assert Gives(live, now, b, sub, ns, level);
  }

  lemma ReachedFromBinding(live: Live, now: int, b: RoleBinding, ns: string, level: Level)
    requires GoodNames(live) && NoUpper(ns) && b in live.bindings
    requires HasRole(Compile(live, now), RoleName(NsOf(b), b.role.level), RoleName(ns, level), MAX_HIERARCHY_LEVEL - 1)
    ensures NsOf(b) == ns && Rank(level) <= Rank(b.role.level) && (b.role.level == level || HasPolicies(live, ns))
  {
    ClusterHasNoUpper();
    var role := RoleName(ns, level);
    RolesBelow(live, now, NsOf(b), b.role.level, role, MAX_HIERARCHY_LEVEL - 1);
    var l: Level :| role == RoleName(NsOf(b), l)
      && (l == b.role.level || (Rank(l) < Rank(b.role.level) && HasPolicies(live, NsOf(b))));
    RoleNameInjective(ns, level, NsOf(b), l);
  }

  /** Subjects are not members of one another. */
  lemma LinkToSubject(live: Live, now: int, sub: string, other: string)
    requires GoodNames(live) && IsSafeSubject(sub) && IsSafeSubject(other)
    ensures HasLink(Compile(live, now), sub, other) <==> sub == other
  {
    var lines := Compile(live, now);
    ClusterHasNoUpper();
    forall via | Member(sub, via) in lines ensures !HasRole(lines, via, other, MAX_HIERARCHY_LEVEL - 1) {
      MemberOfSubject(live, now, sub, via);
      var b :| b in live.bindings && via == RoleName(NsOf(b), b.role.level);
      RolesBelow(live, now, NsOf(b), b.role.level, other, MAX_HIERARCHY_LEVEL - 1);
      forall l: Level { SafeSubjectsAreNoRoles(other, NsOf(b), l); }
    }
  }

  // ---- the theorem ----

  /** What the permission lines of a namespace (or of the cluster) say, level by level. */
  lemma PermissionShape(ns: string, line: Line) returns (l: Level)
    requires line in PoliciesOf(ns) && line.Permission?
    ensures line.sub == RoleName(ns, l)
    ensures
      || (line.act == Act(l) && line.obj == ALL && line.scope == if ns == CLUSTER then ALL else ns)
      || (ns != CLUSTER && line.act == VIEW && line.scope == ALL
          && ((l == Viewer && line.obj == "storageClasses") || (l == Editor && line.obj == "registries")))
  {
    var lines := PoliciesOf(ns);
    var i :| 0 <= i < |lines| && lines[i] == line;
    l := if ns == CLUSTER then [Viewer, Editor, Owner][i] else [Viewer, Viewer, Editor, Editor, Owner][i];
  }

  lemma PermissionOfNamespace(live: Live, now: int, ns: string, line: Line, sub: string, act: string, scope: string, obj: string)
    requires GoodNames(live) && NoUpper(ns) && IsSafeSubject(sub) && HasPolicies(live, ns) && line in PoliciesOf(ns)
    requires Grants(Compile(live, now), line, sub, act, scope, obj)
    ensures exists b :: BindingAllows(live, now, b, sub, act, scope, obj)
  {
    var l := PermissionShape(ns, line);
    LinkToRole(live, now, sub, ns, l);
    var b :| Gives(live, now, b, sub, ns, l);
    ShapeAllows(live, now, b, ns, l, line, sub, act, scope, obj);
  }

  lemma ShapeAllows(live: Live, now: int, b: RoleBinding, ns: string, l: Level, line: Line, sub: string, act: string, scope: string, obj: string)
    requires GoodNames(live) && HasPolicies(live, ns) && BoundAbove(live, now, b, sub, ns, l)
    requires line.Permission? && InScope(scope, line.scope) && ObjMatch(obj, line.obj) && act == line.act
    requires
      || (line.act == Act(l) && line.obj == ALL && line.scope == if ns == CLUSTER then ALL else ns)
      || (ns != CLUSTER && line.act == VIEW && line.scope == ALL
          && ((l == Viewer && line.obj == "storageClasses") || (l == Editor && line.obj == "registries")))
    ensures BindingAllows(live, now, b, sub, act, scope, obj)
  {
    if line.act == Act(l) && line.obj == ALL && line.scope == if ns == CLUSTER then ALL else ns {
      OwnScopeAllows(live, now, b, ns, l, sub, scope, obj);
    } else {
      SharedKinds(line.obj);
      SharedKindAllows(live, now, b, ns, l, line.obj, sub, scope, obj);
    }
  }

  lemma SharedKinds(kind: string)
    ensures kind == "storageClasses" || kind == "registries" ==> '*' !in kind
  {
  }

  lemma OwnScopeAllows(live: Live, now: int, b: RoleBinding, ns: string, l: Level, sub: string, scope: string, obj: string)
    requires GoodNames(live) && HasPolicies(live, ns) && BoundAbove(live, now, b, sub, ns, l)
    requires InScope(scope, if ns == CLUSTER then ALL else ns)
    ensures BindingAllows(live, now, b, sub, Act(l), scope, obj)
  {
    if ns != CLUSTER {
      assert GoodNamespaceName(ns);
    }
  }

  lemma SharedKindAllows(live: Live, now: int, b: RoleBinding, ns: string, l: Level, kind: string, sub: string, scope: string, obj: string)
    requires GoodNames(live) && HasPolicies(live, ns) && BoundAbove(live, now, b, sub, ns, l)
    requires ns != CLUSTER && ObjMatch(obj, kind) && '*' !in kind
    requires (l == Viewer && kind == "storageClasses") || (l == Editor && kind == "registries")
    ensures BindingAllows(live, now, b, sub, VIEW, scope, obj)
  {
    assert obj == kind;
  }

  lemma NothingAdded(live: Live, now: int, sub: string, act: string, scope: string, obj: string)
    requires GoodNames(live) && IsSafeSubject(sub)
    requires Enforce(Compile(live, now), sub, act, scope, obj)
    ensures Allowed(live, now, sub, act, scope, obj)
  {
    var line :| Grants(Compile(live, now), line, sub, act, scope, obj);
    CompiledLine(live, now, line);
    if ns :| HasPolicies(live, ns) && NoUpper(ns) && line in PoliciesOf(ns) {
      PermissionOfNamespace(live, now, ns, line, sub, act, scope, obj);
    } else {
      var t, r :| t in live.tokens && !Expired(t.expiredAt, now) && r in t.rules && line == PolicyFromRule(t.name, r);
      LinkToSubject(live, now, sub, line.sub);
      assert TokenAllows(live, now, t, r, sub, act, scope, obj);
    }
  }

  lemma PolicyGrants(live: Live, now: int, b: RoleBinding, l: Level, line: Line, sub: string, act: string, scope: string, obj: string)
    requires GoodNames(live) && BoundAbove(live, now, b, sub, NsOf(b), l) && HasPolicies(live, NsOf(b))
    requires line in PoliciesOf(NsOf(b)) && line.Permission? && line.sub == RoleName(NsOf(b), l)
    requires InScope(scope, line.scope) && ObjMatch(obj, line.obj) && act == line.act
    ensures Enforce(Compile(live, now), sub, act, scope, obj)
  {
    ClusterHasNoUpper();
    LinkToRole(live, now, sub, NsOf(b), l);
    assert Gives(live, now, b, sub, NsOf(b), l);
    CompiledLine(live, now, line);
    assert Grants(Compile(live, now), line, sub, act, scope, obj);
  }

  /** The permission of a level in a namespace (or the cluster), for all objects there. */
  function OwnPolicy(ns: string, l: Level): Line {
    Permission(RoleName(ns, l), Act(l), if ns == CLUSTER then ALL else ns, ALL)
  }

  lemma OwnPolicyIsListed(ns: string, l: Level)
    ensures OwnPolicy(ns, l) in PoliciesOf(ns)
  {
    var i := if ns == CLUSTER then Rank(l) else 2 * Rank(l);
    assert PoliciesOf(ns)[i] == OwnPolicy(ns, l);
  }

  lemma LevelKept(live: Live, now: int, b: RoleBinding, l: Level, sub: string, scope: string, obj: string)
    requires GoodNames(live) && BoundAbove(live, now, b, sub, NsOf(b), l)
    requires b.role.InCluster? || (EnabledNamespace(live, b.ns) && scope == b.ns)
    ensures Enforce(Compile(live, now), sub, Act(l), scope, obj)
  {
    ObjMatchMeaning(obj, ALL);
    OwnPolicyIsListed(NsOf(b), l);
    PolicyGrants(live, now, b, l, OwnPolicy(NsOf(b), l), sub, Act(l), scope, obj);
  }

  lemma KindKept(live: Live, now: int, b: RoleBinding, l: Level, i: nat, sub: string, scope: string, obj: string)
    requires GoodNames(live) && BoundAbove(live, now, b, sub, NsOf(b), l)
    requires b.role.InNamespace? && EnabledNamespace(live, b.ns)
    requires i < |PoliciesOf(NsOf(b))| && PoliciesOf(NsOf(b))[i] == Permission(RoleName(NsOf(b), l), VIEW, ALL, obj)
    ensures Enforce(Compile(live, now), sub, VIEW, scope, obj)
  {
    ObjMatchMeaning(obj, obj);
    PolicyGrants(live, now, b, l, PoliciesOf(NsOf(b))[i], sub, VIEW, scope, obj);
  }

  lemma BindingKept(live: Live, now: int, b: RoleBinding, sub: string, act: string, scope: string, obj: string)
    requires GoodNames(live) && BindingAllows(live, now, b, sub, act, scope, obj)
    ensures Enforce(Compile(live, now), sub, act, scope, obj)
  {
    if b.role.InCluster? || (scope == b.ns && exists l: Level :: Rank(l) <= Rank(b.role.level) && act == Act(l)) {
      var l: Level :| Rank(l) <= Rank(b.role.level) && act == Act(l);
      LevelKept(live, now, b, l, sub, scope, obj);
    } else if obj == "storageClasses" {
      KindKept(live, now, b, Viewer, 1, sub, scope, obj);
    } else {
      KindKept(live, now, b, Editor, 3, sub, scope, obj);
    }
  }

  lemma TokenKept(live: Live, now: int, t: AccessToken, r: Rule, sub: string, act: string, scope: string, obj: string)
    requires GoodNames(live) && TokenAllows(live, now, t, r, sub, act, scope, obj)
    ensures Enforce(Compile(live, now), sub, act, scope, obj)
  {
    assert Grants(Compile(live, now), PolicyFromRule(t.name, r), sub, act, scope, obj);
  }

  /**
   For every subject Kalm ever asks about, every verb, scope and object: the compiled policies allow the request
   if and only if some live role binding or some live access token does, read directly.
   */
  lemma CompilerIsCorrect(live: Live, now: int, sub: string, act: string, scope: string, obj: string)
    requires GoodNames(live) && IsSafeSubject(sub)
    ensures Enforce(Compile(live, now), sub, act, scope, obj) <==> Allowed(live, now, sub, act, scope, obj)
  {
    if Enforce(Compile(live, now), sub, act, scope, obj) {
      NothingAdded(live, now, sub, act, scope, obj);
    }
    if Allowed(live, now, sub, act, scope, obj) {
      if b :| BindingAllows(live, now, b, sub, act, scope, obj) {
        BindingKept(live, now, b, sub, act, scope, obj);
      } else {
        var t, r :| TokenAllows(live, now, t, r, sub, act, scope, obj);
        TokenKept(live, now, t, r, sub, act, scope, obj);
      }
    }
  }
}
