/** Clients with several subjects, delegation to access tokens, and the excerpt of policies sent to the frontend. */
module RbacClients {
  import opened Base
  import opened PolicyText
  import opened Rbac
  import opened RbacCompiler
  import opened RbacCorrect
  import opened RbacCluster
  import opened RbacIndex

  // ---- a client is one impersonated subject, or its own email and all its groups ----

  datatype Client = Client(email: string, groups: seq<string>, impersonation: string, impersonationType: SubjectType)

  function Subjects(client: Client): (subjects: seq<string>)
    ensures forall s :: s in subjects ==> IsSafeSubject(s)
  {
    if client.impersonation != "" then [SafeSubject(client.impersonation, client.impersonationType)]
    else [SafeSubject(client.email, User)] + seq(|client.groups|, i requires 0 <= i < |client.groups| => SafeSubject(client.groups[i], Group))
  }

  /** The subject speaks for the client: the one it impersonates, or else its email or one of its groups. */
  ghost predicate SpeaksFor(s: string, client: Client) {
    if client.impersonation != "" then
      s == (if client.impersonationType.User? then "user-" else "group-") + client.impersonation
    else
      s == "user-" + client.email || exists i :: 0 <= i < |client.groups| && s == "group-" + client.groups[i]
  }

  lemma SubjectsSpeak(client: Client, s: string)
    ensures s in Subjects(client) <==> SpeaksFor(s, client)
  {
    var subjects := Subjects(client);
    if client.impersonation == "" {
      assert subjects[0] == "user-" + client.email;
      assert forall i :: 0 <= i < |client.groups| ==> subjects[i + 1] == "group-" + client.groups[i];
    }
  }

  /** Asking the enforcer on behalf of a client: the question is put for each of its subjects until one may. */
  method Wrapper(hasEnforcer: bool, client: Client, authFunc: string -> bool) returns (ok: bool)
    ensures ok <==> hasEnforcer && exists s :: s in Subjects(client) && authFunc(s)
  {
    if !hasEnforcer { return false; }
    if client.impersonation != "" {
      ok := authFunc(SafeSubject(client.impersonation, client.impersonationType));
      assert Subjects(client)[0] == SafeSubject(client.impersonation, client.impersonationType);
      return ok;
    }
    ghost var subjects := Subjects(client);
    assert subjects[0] == SafeSubject(client.email, User);
    if authFunc(SafeSubject(client.email, User)) { return true; }
    for i := 0 to |client.groups|
      invariant forall j :: 0 <= j <= i ==> !authFunc(subjects[j])
    {
      assert subjects[i + 1] == SafeSubject(client.groups[i], Group);
      if authFunc(SafeSubject(client.groups[i], Group)) { return true; }
    }
    return false;
  }

  ghost predicate Can(lines: set<Line>, client: Client, act: string, scope: string, obj: string) {
    exists s :: s in Subjects(client) && Enforce(lines, s, act, scope, obj)
  }

  // ---- delegation ----

  /** Creating a token is refused at the first rule its creator could not use himself. */
  method PermissionsCover(rules: seq<Rule>, can: (string, string, string) -> bool) returns (ok: bool)
    ensures ok <==> forall r :: r in rules ==>
      can(r.verb, r.ns, if r.ns == "*" && r.name == "*" then "*" else r.kind + "/" + r.name)
  {
    for i := 0 to |rules|
      invariant forall j :: 0 <= j < i ==> can(rules[j].verb, rules[j].ns, RuleObject(rules[j]))
    {
      if !can(rules[i].verb, rules[i].ns, RuleObject(rules[i])) { return false; }
    }
    return true;
  }

  /** Being allowed a pattern means being allowed everything the pattern covers. */
  lemma PatternsCompose(lines: set<Line>, sub: string, act: string, scope: string, pattern: string, scope': string, obj: string)
    requires Enforce(lines, sub, act, scope, pattern)
    requires InScope(scope', scope) && ObjMatch(obj, pattern)
    ensures Enforce(lines, sub, act, scope', obj)
  {
    var line :| Grants(lines, line, sub, act, scope, pattern);
    ObjMatchTransitive(obj, pattern, line.obj);
    assert Grants(lines, line, sub, act, scope', obj);
  }

  /**
   Whoever passes the delegation check can do everything the token could do by its own rules: the check of the
   finitely many rules covers the infinitely many requests, whichever of the client's subjects passed each rule.
   */
  lemma DelegationIsSound(lines: set<Line>, client: Client, rules: seq<Rule>, act: string, scope: string, obj: string)
    requires forall r :: r in rules ==> Can(lines, client, r.verb, r.ns, RuleObject(r))
    requires exists r :: r in rules && act == r.verb && InScope(scope, r.ns) && ObjMatch(obj, RuleObject(r))
    ensures Can(lines, client, act, scope, obj)
  {
    var r :| r in rules && act == r.verb && InScope(scope, r.ns) && ObjMatch(obj, RuleObject(r));
    var s :| s in Subjects(client) && Enforce(lines, s, r.verb, r.ns, RuleObject(r));
    PatternsCompose(lines, s, act, r.ns, RuleObject(r), scope, obj);
  }

  /** The check asks for no more than that: it is exactly "every request a rule names literally is allowed". */
  lemma DelegationIsExact(lines: set<Line>, client: Client, rules: seq<Rule>)
    ensures (forall r :: r in rules ==> Can(lines, client, r.verb, r.ns, RuleObject(r))) <==>
            (forall act, scope, obj ::
               (exists r :: r in rules && act == r.verb && InScope(scope, r.ns) && ObjMatch(obj, RuleObject(r)))
               ==> Can(lines, client, act, scope, obj))
  {
    if forall r :: r in rules ==> Can(lines, client, r.verb, r.ns, RuleObject(r)) {
      forall act, scope, obj | exists r :: r in rules && act == r.verb && InScope(scope, r.ns) && ObjMatch(obj, RuleObject(r))
        ensures Can(lines, client, act, scope, obj)
      {
        DelegationIsSound(lines, client, rules, act, scope, obj);
      }
    }
    forall r | r in rules ensures ObjMatch(RuleObject(r), RuleObject(r)) { ObjMatchReflexive(RuleObject(r)); }
  }

  /** The enforcer's cluster and namespace forms ask about "*": a yes covers every object, and every namespace. */
  lemma ShortFormsCover(lines: set<Line>, sub: string, act: string, ns: string, obj: string)
    ensures Enforce(lines, sub, act, ALL, ALL) ==> Enforce(lines, sub, act, ns, ALL)
    ensures Enforce(lines, sub, act, ns, ALL) ==> Enforce(lines, sub, act, ns, obj)
  {
    ObjMatchMeaning(obj, ALL);
    ObjMatchReflexive(ALL);
    if Enforce(lines, sub, act, ALL, ALL) { PatternsCompose(lines, sub, act, ALL, ALL, ns, ALL); }
    if Enforce(lines, sub, act, ns, ALL) { PatternsCompose(lines, sub, act, ns, ALL, ns, obj); }
  }

  // ---- the policies sent to the frontend ----

  /** All roles of a subject, at any distance. */
  ghost predicate Implicit(lines: set<Line>, sub: string, role: string) {
    exists level: nat :: HasRole(lines, sub, role, level)
  }

  /** For each subject: its permissions, direct or through roles, and its roles, each made a direct one. */
  ghost predicate InExcerpt(lines: set<Line>, subjects: seq<string>, line: Line) {
    match line
    case Permission(sub, _, _, _) => line in lines && exists s :: s in subjects && Implicit(lines, s, sub)
    case Member(sub, role) => sub in subjects && role != sub && Implicit(lines, sub, role)
  }

  ghost predicate IsExcerpt(lines: set<Line>, subjects: seq<string>, excerpt: set<Line>) {
    forall line :: line in excerpt <==> InExcerpt(lines, subjects, line)
  }

  lemma {:induction false} RolesChain(lines: set<Line>, a: string, b: string, c: string, i: nat, j: nat)
    requires HasRole(lines, a, b, i) && HasRole(lines, b, c, j)
    ensures HasRole(lines, a, c, i + j)
    decreases i
  {
    if a == b {
      DeeperIsFine(lines, b, c, j, i + j);
    } else {
      var via :| Member(a, via) in lines && HasRole(lines, via, b, i - 1);
      RolesChain(lines, via, b, c, i - 1, j);
    }
  }

  lemma {:induction false} DeeperIsFine(lines: set<Line>, a: string, b: string, i: nat, j: nat)
    requires HasRole(lines, a, b, i) && i <= j
    ensures HasRole(lines, a, b, j)
    decreases i
  {
    if a != b {
      var via :| Member(a, via) in lines && HasRole(lines, via, b, i - 1);
      DeeperIsFine(lines, via, b, i - 1, j - 1);
    }
  }

  lemma {:induction false} ExcerptRolesAreRoles(lines: set<Line>, subjects: seq<string>, excerpt: set<Line>, a: string, b: string, k: nat)
    requires IsExcerpt(lines, subjects, excerpt) && HasRole(excerpt, a, b, k)
    ensures Implicit(lines, a, b)
    decreases k
  {
    if a == b {
      assert HasRole(lines, a, b, 0);
    } else {
      var via :| Member(a, via) in excerpt && HasRole(excerpt, via, b, k - 1);
      assert InExcerpt(lines, subjects, Member(a, via));
      var i: nat :| HasRole(lines, a, via, i);
      ExcerptRolesAreRoles(lines, subjects, excerpt, via, b, k - 1);
      var j: nat :| HasRole(lines, via, b, j);
      RolesChain(lines, a, via, b, i, j);
    }
  }

  /** No subject has a role only at a depth the enforcer refuses to follow. */
  ghost predicate Shallow(lines: set<Line>, sub: string) {
    forall role :: Implicit(lines, sub, role) ==> HasLink(lines, sub, role)
  }

  /** Decisions about the listed subjects are the same from the excerpt as from all policies. */
  lemma ExcerptDecidesAlike(lines: set<Line>, subjects: seq<string>, excerpt: set<Line>, sub: string, act: string, scope: string, obj: string)
    requires IsExcerpt(lines, subjects, excerpt) && sub in subjects && Shallow(lines, sub)
    ensures Enforce(excerpt, sub, act, scope, obj) <==> Enforce(lines, sub, act, scope, obj)
  {
    if line :| Grants(excerpt, line, sub, act, scope, obj) {
      assert InExcerpt(lines, subjects, line);
      ExcerptRolesAreRoles(lines, subjects, excerpt, sub, line.sub, MAX_HIERARCHY_LEVEL);
      assert Grants(lines, line, sub, act, scope, obj);
    }
    if line :| Grants(lines, line, sub, act, scope, obj) {
      assert Implicit(lines, sub, line.sub);
      assert InExcerpt(lines, subjects, line);
      if sub != line.sub {
        assert InExcerpt(lines, subjects, Member(sub, line.sub));
        assert HasRole(excerpt, line.sub, line.sub, MAX_HIERARCHY_LEVEL - 1);
      }
      assert Grants(excerpt, line, sub, act, scope, obj);
    }
  }

  lemma GoodIsShallow(live: Live, now: int, sub: string)
    requires GoodNames(live) && IsSafeSubject(sub)
    ensures Shallow(Compile(live, now), sub)
  {
    var lines := Compile(live, now);
    forall role | Implicit(lines, sub, role) ensures HasLink(lines, sub, role) {
      var k: nat :| HasRole(lines, sub, role, k);
      if sub != role {
        var via :| Member(sub, via) in lines && HasRole(lines, via, role, k - 1);
        ShallowFromRole(live, now, sub, via, role, k - 1);
      }
    }
  }

  lemma ShallowFromRole(live: Live, now: int, sub: string, via: string, role: string, k: nat)
    requires GoodNames(live) && IsSafeSubject(sub)
    requires Member(sub, via) in Compile(live, now) && HasRole(Compile(live, now), via, role, k)
    ensures HasRole(Compile(live, now), via, role, MAX_HIERARCHY_LEVEL - 1)
  {
    MemberOfSubject(live, now, sub, via);
    ClusterHasNoUpper();
    var b :| b in live.bindings && via == RoleName(NsOf(b), b.role.level);
    DeeperIsFine(Compile(live, now), via, role, k, k + 2);
    RolesBelow(live, now, NsOf(b), b.role.level, role, k + 2);
    RolesBelow(live, now, NsOf(b), b.role.level, role, MAX_HIERARCHY_LEVEL - 1);
  }

  /** The compiled role hierarchy is at most three memberships deep. */
  lemma CompiledIsShallow(live: Live, now: int, sub: string)
    requires NamespacesNamed(live) && IsSafeSubject(sub)
    ensures Shallow(Compile(live, now), sub)
  {
    var lines, outside := Compile(live, now), Compile(Outside(live), now);
    OutsideIsGood(live);
    GoodIsShallow(Outside(live), now, sub);
    forall a, b ensures Member(a, b) in lines <==> Member(a, b) in outside {
      SameMembers(live, now, a, b);
    }
    forall role | Implicit(lines, sub, role) ensures HasLink(lines, sub, role) {
      var k: nat :| HasRole(lines, sub, role, k);
      SameRoles(lines, outside, sub, role, k);
      SameLinks(live, now, sub, role);
    }
  }

  /** What is decided from an excerpt is what the server decides, for every subject of the client. */
  lemma ExcerptAgrees(live: Live, now: int, client: Client, excerpt: set<Line>, act: string, scope: string, obj: string)
    requires NamespacesNamed(live) && IsExcerpt(Compile(live, now), Subjects(client), excerpt)
    ensures Can(excerpt, client, act, scope, obj) <==> Can(Compile(live, now), client, act, scope, obj)
  {
    forall s | s in Subjects(client)
      ensures Enforce(excerpt, s, act, scope, obj) <==> Enforce(Compile(live, now), s, act, scope, obj)
    {
      CompiledIsShallow(live, now, s);
      ExcerptDecidesAlike(Compile(live, now), Subjects(client), excerpt, s, act, scope, obj);
    }
  }

  // ---- the excerpt as text ----

  /** What the enforcer answers when asked for all permissions, or all roles, of a subject. */
  type Permissions = string -> seq<Line>
  type Roles = string -> seq<string>

  ghost predicate AnswersFor(lines: set<Line>, s: string, permissions: seq<Line>, roles: seq<string>) {
    && (forall line :: line in permissions <==> line.Permission? && line in lines && Implicit(lines, s, line.sub))
    && (forall role :: role in roles <==> role != s && Implicit(lines, s, role))
  }

  function Memberships(s: string, roles: seq<string>): (r: seq<Line>)
    ensures |r| == |roles|
  {
    seq(|roles|, i requires 0 <= i < |roles| => Member(s, roles[i]))
  }

  function CompleteLines(subjects: seq<string>, permissionsOf: Permissions, rolesOf: Roles): seq<Line> {
    if subjects == [] then []
    else
      var s := subjects[|subjects| - 1];
      CompleteLines(subjects[..|subjects| - 1], permissionsOf, rolesOf) + (permissionsOf(s) + Memberships(s, rolesOf(s)))
  }

  /** The policies of some subjects as one text: their permissions as they are, their roles made direct ones. */
  method GetCompletePoliciesFor(subjects: seq<string>, permissionsOf: Permissions, rolesOf: Roles) returns (text: string)
    ensures text == Join(WriteAll(CompleteLines(subjects, permissionsOf, rolesOf)), "\n")
  {
    var res: seq<Line> := [];
    for i := 0 to |subjects|
      invariant res == CompleteLines(subjects[..i], permissionsOf, rolesOf)
    {
      var before := res;
      assert subjects[..i + 1][..i] == subjects[..i];
      res := res + permissionsOf(subjects[i]);
      var roles := rolesOf(subjects[i]);
      for j := 0 to |roles|
        invariant res == before + (permissionsOf(subjects[i]) + Memberships(subjects[i], roles)[..j])
      {
        res := res + [Member(subjects[i], roles[j])];
      }
    }
    assert subjects[..|subjects|] == subjects;
    text := Join(WriteAll(res), "\n");
  }

  lemma {:induction false} CompleteLinesMember(lines: set<Line>, subjects: seq<string>, permissionsOf: Permissions,
      rolesOf: Roles, line: Line)
    requires forall s :: s in subjects ==> AnswersFor(lines, s, permissionsOf(s), rolesOf(s))
    ensures line in CompleteLines(subjects, permissionsOf, rolesOf) <==> InExcerpt(lines, subjects, line)
  {
    if subjects != [] {
      var init, s := subjects[..|subjects| - 1], subjects[|subjects| - 1];
      assert s in subjects && subjects == init + [s];
      CompleteLinesMember(lines, init, permissionsOf, rolesOf, line);
      MembershipsMember(s, rolesOf(s), line);
      assert AnswersFor(lines, s, permissionsOf(s), rolesOf(s));
    }
  }

  lemma MembershipsMember(s: string, roles: seq<string>, line: Line)
    ensures line in Memberships(s, roles) <==> line.Member? && line.sub == s && line.role in roles
  {
    if line.Member? && line.sub == s && line.role in roles {
      var i :| 0 <= i < |roles| && roles[i] == line.role;
      assert Memberships(s, roles)[i] == line;
    }
  }

  lemma {:induction false} WrittenHaveNoBreak(lines: seq<Line>)
    requires forall l :: l in lines ==> CleanLine(l)
    ensures forall w :: w in WriteAll(lines) ==> '\n' !in w
    ensures |WriteAll(lines)| == |lines|
  {
    if lines != [] {
      assert CleanLine(lines[0]);
      WrittenHaveNoBreak(lines[1..]);
      WrittenHasNoBreak(FieldsOf(lines[0]));
    }
  }

  /** A text of clean lines joined by line breaks loads to those lines. */
  lemma JoinedTextLoads(lines: seq<Line>)
    requires forall l :: l in lines ==> CleanLine(l)
    ensures LinesOf(Load(Join(WriteAll(lines), "\n"))) == Elements(lines)
  {
    WrittenHaveNoBreak(lines);
    CarriesWritten(lines);
    if lines == [] {
      LoadOne("");
      assert Split("", '\n') == [""];
    } else {
      SplitJoined(WriteAll(lines), '\n');
      assert "\n" == ['\n'];
    }
    forall l | l in lines ensures FieldsOf(l) in LoadLines(WriteAll(lines)) {
      LineOfFields(l);
    }
  }

  /** Lines of an excerpt are clean when the policies and the client's subjects are. */
  lemma ExcerptIsClean(live: Live, now: int, client: Client, line: Line)
    requires CleanLive(live, now) && InExcerpt(Compile(live, now), Subjects(client), line)
    requires forall s :: s in Subjects(client) ==> CleanField(s)
    ensures CleanLine(line)
  {
    CompiledAreClean(live, now);
    if line.Member? {
      var k: nat :| HasRole(Compile(live, now), line.sub, line.role, k);
      RoleIsCleanBelow(Compile(live, now), line.sub, line.role, k);
      MemberIsClean(line.sub, line.role);
    }
  }

  lemma {:induction false} RoleIsCleanBelow(lines: set<Line>, sub: string, role: string, level: nat)
    requires CleanField(sub) && HasRole(lines, sub, role, level) && forall l :: l in lines ==> CleanLine(l)
    ensures CleanField(role)
    decreases level
  {
    if sub != role {
      var via :| Member(sub, via) in lines && HasRole(lines, via, role, level - 1);
      var f := FieldsOf(Member(sub, via));
      assert CleanLine(Member(sub, via)) && f[2] in f;
      RoleIsCleanBelow(lines, via, role, level - 1);
    }
  }

  /**
   The frontend loads the text it is sent and decides by it: for every request of a client with clean subjects it
   decides as the server does, when the server's own text is clean.
   */
  lemma FrontendAgrees(live: Live, now: int, client: Client, permissionsOf: Permissions, rolesOf: Roles,
      act: string, scope: string, obj: string)
    requires NamespacesNamed(live) && CleanLive(live, now)
    requires forall s :: s in Subjects(client) ==>
      CleanField(s) && AnswersFor(Compile(live, now), s, permissionsOf(s), rolesOf(s))
    ensures
      var text := Join(WriteAll(CompleteLines(Subjects(client), permissionsOf, rolesOf)), "\n");
      Can(LinesOf(Load(text)), client, act, scope, obj) <==> Can(Compile(live, now), client, act, scope, obj)
  {
    var lines, list := Compile(live, now), CompleteLines(Subjects(client), permissionsOf, rolesOf);
    forall line ensures line in list <==> InExcerpt(lines, Subjects(client), line) {
      CompleteLinesMember(lines, Subjects(client), permissionsOf, rolesOf, line);
    }
    forall line | line in list ensures CleanLine(line) {
      ExcerptIsClean(live, now, client, line);
    }
    JoinedTextLoads(list);
    ExcerptAgrees(live, now, client, Elements(list), act, scope, obj);
  }
}
