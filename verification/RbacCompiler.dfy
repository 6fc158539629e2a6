/** Role bindings, access tokens and namespaces compiled to policies, and the proof that nothing is added or lost. */
module RbacCompiler {
  import opened Base
  import opened PolicyText
  import opened Rbac

  // ---- the objects ----

  datatype Level = Viewer | Editor | Owner

  /** A role name: one of the three levels, in one namespace or in the whole cluster. */
  datatype Role = InNamespace(level: Level) | InCluster(level: Level)

  datatype SubjectType = User | Group

  datatype Rule = Rule(verb: string, ns: string, kind: string, name: string)

  datatype Namespace = Namespace(name: string, labels: map<string, string>)
  datatype AccessToken = AccessToken(name: string, rules: seq<Rule>, expiredAt: Option<int>)
  datatype RoleBinding = RoleBinding(
    ns: string, name: string, subject: string, subjectType: SubjectType, role: Role, expiredAt: Option<int>)

  datatype Live = Live(namespaces: set<Namespace>, tokens: set<AccessToken>, bindings: set<RoleBinding>)

  predicate Expired(expiredAt: Option<int>, now: int) {
    expiredAt.Some? && expiredAt.value < now
  }

  predicate IsEnabled(n: Namespace) {
    "kalm-enabled" in n.labels && n.labels["kalm-enabled"] == "true"
  }

  function Rank(level: Level): nat {
    match level case Viewer => 0 case Editor => 1 case Owner => 2
  }

  function Act(level: Level): string {
    match level case Viewer => VIEW case Editor => EDIT case Owner => MANAGE
  }

  function Suffix(level: Level): string {
    match level case Viewer => "Viewer" case Editor => "Editor" case Owner => "Owner"
  }

  function SafeSubject(subject: string, subjectType: SubjectType): string {
    match subjectType case User => "user-" + subject case Group => "group-" + subject
  }

  // ---- compilation ----

  const CLUSTER := "cluster"

  /** The policy name of a role at a level; the cluster's own roles look like those of a namespace "cluster". */
  function RoleName(ns: string, level: Level): string {
    "role_" + ns + Suffix(level)
  }

  function RoleValueToPolicyValue(role: Role, ns: string): string {
    match role
    case InCluster(level) => RoleName(CLUSTER, level)
    case InNamespace(level) => RoleName(ns, level)
  }

  function Inheritance(ns: string): seq<Line> {
    [Member(RoleName(ns, Editor), RoleName(ns, Viewer)),
     Member(RoleName(ns, Owner), RoleName(ns, Editor))]
  }

  function ClusterRolePolicies(): seq<Line> {
    [Permission(RoleName(CLUSTER, Viewer), VIEW, ALL, ALL),
     Permission(RoleName(CLUSTER, Editor), EDIT, ALL, ALL),
     Permission(RoleName(CLUSTER, Owner), MANAGE, ALL, ALL)] + Inheritance(CLUSTER)
  }

  function RolePoliciesForNamespace(ns: string): seq<Line> {
    [Permission(RoleName(ns, Viewer), VIEW, ns, ALL),
     Permission(RoleName(ns, Viewer), VIEW, ALL, "storageClasses"),
     Permission(RoleName(ns, Editor), EDIT, ns, ALL),
     Permission(RoleName(ns, Editor), VIEW, ALL, "registries"),
     Permission(RoleName(ns, Owner), MANAGE, ns, ALL)] + Inheritance(ns)
  }

  function RuleObject(rule: Rule): string {
    if rule.ns == ALL && rule.name == ALL then ALL else rule.kind + "/" + rule.name
  }

  function PolicyFromRule(token: string, rule: Rule): Line {
    Permission(SafeSubject(token, User), rule.verb, rule.ns, RuleObject(rule))
  }

  function PolicyFromBinding(b: RoleBinding): Line {
    Member(SafeSubject(b.subject, b.subjectType), RoleValueToPolicyValue(b.role, b.ns))
  }

  ghost function NamespacePolicies(namespaces: set<Namespace>): set<Line> {
    set n, l | n in namespaces && IsEnabled(n) && l in RolePoliciesForNamespace(n.name) :: l
  }

  ghost function TokenPolicies(tokens: set<AccessToken>, now: int): set<Line> {
    set t, r | t in tokens && !Expired(t.expiredAt, now) && r in t.rules :: PolicyFromRule(t.name, r)
  }

  ghost function BindingPolicies(bindings: set<RoleBinding>, now: int): set<Line> {
    set b | b in bindings && !Expired(b.expiredAt, now) :: PolicyFromBinding(b)
  }

  /** All policies in force at a moment. */
  ghost function Compile(live: Live, now: int): set<Line> {
    Elements(ClusterRolePolicies()) + NamespacePolicies(live.namespaces)
    + TokenPolicies(live.tokens, now) + BindingPolicies(live.bindings, now)
  }

  // ---- the direct reading ----

  ghost predicate EnabledNamespace(live: Live, ns: string) {
    exists n :: n in live.namespaces && IsEnabled(n) && n.name == ns
  }

  /** What a role allows, read off directly. */
  ghost predicate RoleAllows(live: Live, role: Role, ns: string, act: string, scope: string, obj: string) {
    match role
    case InCluster(level) => exists l: Level :: Rank(l) <= Rank(level) && act == Act(l)
    case InNamespace(level) =>
      && EnabledNamespace(live, ns)
      && ((scope == ns && exists l: Level :: Rank(l) <= Rank(level) && act == Act(l))
          || (act == VIEW && obj == "storageClasses")
          || (act == VIEW && obj == "registries" && level != Viewer))
  }

  ghost predicate BindingAllows(live: Live, now: int, b: RoleBinding, sub: string, act: string, scope: string, obj: string) {
    && b in live.bindings && !Expired(b.expiredAt, now) && SafeSubject(b.subject, b.subjectType) == sub
    && RoleAllows(live, b.role, b.ns, act, scope, obj)
  }

  ghost predicate TokenAllows(live: Live, now: int, t: AccessToken, r: Rule, sub: string, act: string, scope: string, obj: string) {
    && t in live.tokens && !Expired(t.expiredAt, now) && r in t.rules && SafeSubject(t.name, User) == sub
    && act == r.verb && (r.ns == ALL || scope == r.ns) && ObjMatch(obj, RuleObject(r))
  }

  ghost predicate Allowed(live: Live, now: int, sub: string, act: string, scope: string, obj: string) {
    || (exists b :: BindingAllows(live, now, b, sub, act, scope, obj))
    || (exists t, r :: TokenAllows(live, now, t, r, sub, act, scope, obj))
  }

  // ---- names ----

  predicate IsUpper(c: char) { 'A' <= c <= 'Z' }

  /** Kubernetes namespace names have no upper-case letters and no star. */
  predicate NamespaceName(ns: string) {
    ns != ALL && forall c :: c in ns ==> !IsUpper(c)
  }

  /** Of those, "cluster" is the one name the scheme cannot tell from the cluster itself. */
  predicate GoodNamespaceName(ns: string) {
    NamespaceName(ns) && ns != CLUSTER
  }

  ghost predicate NamespacesNamed(live: Live) {
    && (forall n :: n in live.namespaces ==> NamespaceName(n.name))
    && (forall b :: b in live.bindings && b.role.InNamespace? ==> NamespaceName(b.ns))
  }

  ghost predicate GoodNames(live: Live) {
    && (forall n :: n in live.namespaces ==> GoodNamespaceName(n.name))
    && (forall b :: b in live.bindings && b.role.InNamespace? ==> GoodNamespaceName(b.ns))
  }

  lemma MiddleIsInjective(p: string, m: string, s: string, m': string, s': string)
    requires s != [] && s' != [] && IsUpper(s[0]) && IsUpper(s'[0])
    requires forall c :: c in m || c in m' ==> !IsUpper(c)
    requires p + m + s == p + m' + s'
    ensures m == m' && s == s'
  {
    var a := p + m + s;
    MiddleIsNoLonger(p, m, s, m', s', a);
    MiddleIsNoLonger(p, m', s', m, s, a);
    assert a[|p|..|p| + |m|] == m && a[|p|..|p| + |m'|] == m';
    assert a[|p| + |m|..] == s && a[|p| + |m'|..] == s';
  }

  lemma MiddleIsNoLonger(p: string, m: string, s: string, m': string, s': string, a: string)
    requires s != [] && IsUpper(s[0])
    requires forall c :: c in m' ==> !IsUpper(c)
    requires a == p + m + s && a == p + m' + s'
    ensures |m'| <= |m|
  {
    assert a[|p| + |m|] == s[0];
    assert forall i :: |p| <= i < |p| + |m'| ==> a[i] == m'[i - |p|];
  }

  lemma SuffixInjective(level: Level, level': Level)
    ensures Suffix(level) != [] && IsUpper(Suffix(level)[0])
    ensures Suffix(level) == Suffix(level') ==> level == level'
  {
    assert Suffix(Viewer)[0] == 'V' && Suffix(Editor)[0] == 'E' && Suffix(Owner)[0] == 'O';
  }

  lemma RoleNameInjective(ns: string, level: Level, ns': string, level': Level)
    requires forall c :: c in ns || c in ns' ==> !IsUpper(c)
    ensures RoleName(ns, level) == RoleName(ns', level') ==> ns == ns' && level == level'
  {
    SuffixInjective(level, level');
    SuffixInjective(level', level);
    if RoleName(ns, level) == RoleName(ns', level') {
      MiddleIsInjective("role_", ns, Suffix(level), ns', Suffix(level'));
    }
  }

  predicate IsSafeSubject(sub: string) {
    "user-" <= sub || "group-" <= sub
  }

  lemma SafeSubjectsAreNoRoles(sub: string, ns: string, level: Level)
    requires IsSafeSubject(sub)
    ensures sub != RoleName(ns, level)
  {
    assert RoleName(ns, level)[0] == 'r';
  }
}
