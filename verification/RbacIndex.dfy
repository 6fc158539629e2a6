/** The in-memory index of namespaces, tokens and role bindings that informer events keep up to date. */
module RbacIndex {
  import opened Base
  import opened PolicyText
  import opened Rbac
  import opened RbacCompiler

  datatype Index = Index(
    applications: map<string, Namespace>,
    accessTokens: map<string, AccessToken>,
    roleBindings: map<string, RoleBinding>)

  /** An informer event. Deletions carry the object as it was last seen. */
  datatype Event =
    | PutNamespace(namespace: Namespace) | DropNamespace(namespace: Namespace)
    | PutToken(token: AccessToken) | DropToken(token: AccessToken)
    | PutBinding(binding: RoleBinding) | DropBinding(binding: RoleBinding)
    | Regenerate

  /** The key role bindings are indexed under: namespace and name joined by a dash. */
  function JoinedKey(b: RoleBinding): string {
    b.ns + "-" + b.name
  }

  function Apply(i: Index, e: Event): Index {
    match e
    case PutNamespace(n) => i.(applications := i.applications[n.name := n])
    case DropNamespace(n) => i.(applications := i.applications - {n.name})
    case PutToken(t) => i.(accessTokens := i.accessTokens[t.name := t])
    case DropToken(t) => i.(accessTokens := i.accessTokens - {t.name})
    case PutBinding(b) => i.(roleBindings := i.roleBindings[JoinedKey(b) := b])
    case DropBinding(b) => i.(roleBindings := i.roleBindings - {JoinedKey(b)})
    case Regenerate => i
  }

  function LiveOf(i: Index): Live {
    Live(i.applications.Values, i.accessTokens.Values, i.roleBindings.Values)
  }

  // ---- the policy text ----

  function WriteAll(lines: seq<Line>): seq<string> {
    if lines == [] then [] else [Write(FieldsOf(lines[0]))] + WriteAll(lines[1..])
  }

  function ClusterBlock(policies: seq<Line>): seq<string> {
    ["", "# cluster role policies"] + WriteAll(policies)
  }

  function NamespaceBlock(name: string): seq<string> {
    ["", "# " + name + " application role policies"] + WriteAll(RolePoliciesForNamespace(name))
  }

  function TokenPolicyList(token: AccessToken): (r: seq<Line>)
    ensures |r| == |token.rules|
  {
    seq(|token.rules|, i requires 0 <= i < |token.rules| => PolicyFromRule(token.name, token.rules[i]))
  }

  function TokenBlock(token: AccessToken): seq<string> {
    ["# policies for access token " + token.name] + WriteAll(TokenPolicyList(token))
  }

  function BindingComment(b: RoleBinding): string {
    "# policies for rolebinding " + b.name
  }

  function BindingBlock(b: RoleBinding): seq<string> {
    [BindingComment(b)] + WriteAll([PolicyFromBinding(b)])
  }

  // ---- clean names make a lossless text ----

  predicate CleanLine(line: Line) {
    CleanPolicy(FieldsOf(line))
  }

  predicate CleanName(s: string) {
    ',' !in s && forall c :: c in s ==> !IsSpace(c)
  }

  predicate CleanNamespace(n: Namespace) {
    IsEnabled(n) ==> CleanName(n.name)
  }

  predicate CleanToken(t: AccessToken, now: int) {
    Expired(t.expiredAt, now) || (CleanName(t.name) && forall r :: r in t.rules ==> CleanLine(PolicyFromRule(t.name, r)))
  }

  predicate CleanBinding(b: RoleBinding, now: int) {
    Expired(b.expiredAt, now) || (CleanName(b.name) && CleanLine(PolicyFromBinding(b)))
  }

  /** Everything that is written at this moment is clean. */
  ghost predicate CleanLive(live: Live, now: int) {
    && (forall n :: n in live.namespaces ==> CleanNamespace(n))
    && (forall t :: t in live.tokens ==> CleanToken(t, now))
    && (forall b :: b in live.bindings ==> CleanBinding(b, now))
  }

  lemma NoSpaceIsTrimmed(s: string)
    requires forall c :: c in s ==> !IsSpace(c)
    ensures Trim(s) == s
  {
  }

  lemma CleanNamesMakeCleanRoles(ns: string, level: Level)
    requires CleanName(ns)
    ensures CleanField(RoleName(ns, level)) && CleanField(ns)
  {
    NoSpaceIsTrimmed(RoleName(ns, level));
    NoSpaceIsTrimmed(ns);
  }

  /** The raw lines load to exactly the given policies. */
  ghost predicate Carries(raw: seq<string>, lines: set<Line>) {
    && (forall r :: r in raw ==> '\n' !in r)
    && (forall f :: f in LoadLines(raw) <==> LineOf(f).Some? && LineOf(f).value in lines && FieldsOf(LineOf(f).value) == f)
  }

  lemma Regroup<T>(a: seq<T>, b: seq<T>, c: seq<T>)
    ensures a + (b + c) == (a + b) + c
  {
  }

  lemma {:induction false} LoadEachAppend(a: seq<string>, b: seq<string>, load: string -> seq<Fields>)
    ensures LoadEach(a + b, load) == LoadEach(a, load) + LoadEach(b, load)
  {
    if a == [] {
      assert a + b == b;
    } else {
      LoadEachAppend(a[1..], b, load);
      assert (a + b)[0] == a[0] && (a + b)[1..] == a[1..] + b;
      Regroup(load(a[0]), LoadEach(a[1..], load), LoadEach(b, load));
    }
  }

  lemma {:induction false} UnlinesAppend(a: seq<string>, b: seq<string>)
    ensures Unlines(a + b) == Unlines(a) + Unlines(b)
  {
    if a == [] {
      assert a + b == b;
    } else {
      UnlinesAppend(a[1..], b);
      assert (a + b)[0] == a[0] && (a + b)[1..] == a[1..] + b;
      Regroup(a[0] + "\n", Unlines(a[1..]), Unlines(b));
    }
  }

  lemma CarriesAppend(a: seq<string>, x: set<Line>, b: seq<string>, y: set<Line>)
    requires Carries(a, x) && Carries(b, y)
    ensures Carries(a + b, x + y)
  {
    LoadEachAppend(a, b, LoadLine);
  }

  lemma {:induction false} CarriesWritten(lines: seq<Line>)
    requires forall l :: l in lines ==> CleanLine(l)
    ensures Carries(WriteAll(lines), Elements(lines))
  {
    if lines != [] {
      var first := FieldsOf(lines[0]);
      assert CleanLine(lines[0]) && CleanPolicy(first);
      CarriesWritten(lines[1..]);
      LoadWritten(first);
      WrittenHasNoBreak(first);
      LineOfFields(lines[0]);
      LoadOne(Write(first));
      assert Carries([Write(first)], {lines[0]});
      CarriesAppend([Write(first)], {lines[0]}, WriteAll(lines[1..]), Elements(lines[1..]));
      assert Elements(lines) == {lines[0]} + Elements(lines[1..]);
    }
  }

  lemma CarriesComment(comment: string)
    requires comment == "" || (comment[0] == '#' && '\n' !in comment)
    ensures Carries([comment], {})
  {
    LoadOne(comment);
  }

  lemma NameIsClean(s: string)
    requires CleanName(s)
    ensures CleanField(s)
  {
    NoSpaceIsTrimmed(s);
  }

  lemma PermissionIsClean(sub: string, act: string, scope: string, obj: string)
    requires CleanField(sub) && CleanField(act) && CleanField(scope) && CleanField(obj)
    ensures CleanLine(Permission(sub, act, scope, obj))
  {
    NameIsClean("p");
  }

  lemma MemberIsClean(sub: string, role: string)
    requires CleanField(sub) && CleanField(role)
    ensures CleanLine(Member(sub, role))
  {
    NameIsClean("g");
  }

  lemma VerbIsClean(level: Level)
    ensures CleanField(Act(level))
  {
    NameIsClean(Act(level));
  }

  lemma InheritanceIsClean(ns: string)
    requires CleanName(ns)
    ensures forall l :: l in Inheritance(ns) ==> CleanLine(l)
  {
    forall level { CleanNamesMakeCleanRoles(ns, level); }
    MemberIsClean(RoleName(ns, Editor), RoleName(ns, Viewer));
    MemberIsClean(RoleName(ns, Owner), RoleName(ns, Editor));
  }

  lemma ClusterPoliciesAreClean()
    ensures forall l :: l in ClusterRolePolicies() ==> CleanLine(l)
  {
    InheritanceIsClean(CLUSTER);
    NameIsClean(ALL);
    forall level: Level ensures CleanLine(Permission(RoleName(CLUSTER, level), Act(level), ALL, ALL)) {
      VerbIsClean(level);
      CleanNamesMakeCleanRoles(CLUSTER, level);
      PermissionIsClean(RoleName(CLUSTER, level), Act(level), ALL, ALL);
    }
    assert Act(Viewer) == VIEW && Act(Editor) == EDIT && Act(Owner) == MANAGE;
  }

  lemma NamespacePermissionsAreClean(ns: string, level: Level, obj: string)
    requires CleanName(ns) && CleanName(obj)
    ensures CleanLine(Permission(RoleName(ns, level), Act(level), ns, ALL))
    ensures CleanLine(Permission(RoleName(ns, level), VIEW, ALL, obj))
  {
    NameIsClean(ALL);
    NameIsClean(obj);
    VerbIsClean(level);
    VerbIsClean(Viewer);
    CleanNamesMakeCleanRoles(ns, level);
    PermissionIsClean(RoleName(ns, level), Act(level), ns, ALL);
    PermissionIsClean(RoleName(ns, level), VIEW, ALL, obj);
  }

  lemma KindsAreClean()
    ensures CleanName("storageClasses") && CleanName("registries") && CleanName(ALL)
  {
  }

  lemma NamespacePoliciesAreClean(ns: string)
    requires CleanName(ns)
    ensures forall l :: l in RolePoliciesForNamespace(ns) ==> CleanLine(l)
  {
    InheritanceIsClean(ns);
    KindsAreClean();
    NamespacePermissionsAreClean(ns, Viewer, "storageClasses");
    NamespacePermissionsAreClean(ns, Editor, "registries");
    NamespacePermissionsAreClean(ns, Owner, ALL);
    assert Act(Viewer) == VIEW && Act(Editor) == EDIT && Act(Owner) == MANAGE;
  }

  /** A block of text: a blank line, a comment, and some clean policies. */
  lemma BlockCarries(comment: string, lines: seq<Line>)
    requires comment != "" && comment[0] == '#' && '\n' !in comment
    requires forall l :: l in lines ==> CleanLine(l)
    ensures Carries([comment] + WriteAll(lines), Elements(lines))
    ensures Carries(["", comment] + WriteAll(lines), Elements(lines))
  {
    CarriesWritten(lines);
    CarriesComment("");
    CarriesComment(comment);
    CarriesAppend([comment], {}, WriteAll(lines), Elements(lines));
    assert {} + Elements(lines) == Elements(lines);
    CarriesAppend([""], {}, [comment] + WriteAll(lines), Elements(lines));
    assert [""] + ([comment] + WriteAll(lines)) == ["", comment] + WriteAll(lines);
  }

  lemma ClusterBlockCarries(policies: seq<Line>)
    requires forall l :: l in policies ==> CleanLine(l)
    ensures Carries(ClusterBlock(policies), Elements(policies))
  {
    BlockCarries("# cluster role policies", policies);
  }

  lemma NamespaceBlockCarries(name: string)
    requires CleanName(name)
    ensures Carries(NamespaceBlock(name), Elements(RolePoliciesForNamespace(name)))
  {
    NamespacePoliciesAreClean(name);
    BlockCarries("# " + name + " application role policies", RolePoliciesForNamespace(name));
  }

  lemma TokenBlockCarries(t: AccessToken)
    requires CleanName(t.name) && forall r :: r in t.rules ==> CleanLine(PolicyFromRule(t.name, r))
    ensures Carries(TokenBlock(t), Elements(TokenPolicyList(t)))
  {
    BlockCarries("# policies for access token " + t.name, TokenPolicyList(t));
  }

  lemma BindingBlockCarries(b: RoleBinding)
    requires CleanName(b.name) && CleanLine(PolicyFromBinding(b))
    ensures Carries(BindingBlock(b), {PolicyFromBinding(b)})
  {
    var comment := BindingComment(b);
    assert '\n' !in comment;
    BlockCarries(comment, [PolicyFromBinding(b)]);
    assert Elements([PolicyFromBinding(b)]) == {PolicyFromBinding(b)};
  }

  /** Text that carries the policies loads to them. */
  lemma LoadCarried(raw: seq<string>, lines: set<Line>)
    requires Carries(raw, lines) && forall l :: l in lines ==> CleanLine(l)
    ensures LinesOf(Load(Unlines(raw))) == lines
  {
    LoadUnlines(raw);
    forall l | l in lines ensures FieldsOf(l) in LoadLines(raw) { LineOfFields(l); }
  }

  // ---- the whole text ----

  function NamespaceText(n: Namespace): string {
    if IsEnabled(n) then Unlines(NamespaceBlock(n.name)) else ""
  }

  function TokenText(t: AccessToken, now: int): string {
    if Expired(t.expiredAt, now) then "" else Unlines(TokenBlock(t))
  }

  function BindingText(b: RoleBinding, now: int): string {
    if Expired(b.expiredAt, now) then "" else Unlines(BindingBlock(b))
  }

  function NamespacesText(list: seq<Namespace>): string {
    if list == [] then "" else NamespacesText(list[..|list| - 1]) + NamespaceText(list[|list| - 1])
  }

  function TokensText(list: seq<AccessToken>, now: int): string {
    if list == [] then "" else TokensText(list[..|list| - 1], now) + TokenText(list[|list| - 1], now)
  }

  function BindingsText(list: seq<RoleBinding>, now: int): string {
    if list == [] then "" else BindingsText(list[..|list| - 1], now) + BindingText(list[|list| - 1], now)
  }

  function WholeText(cluster: seq<Line>, namespaces: seq<Namespace>, tokens: seq<AccessToken>, bindings: seq<RoleBinding>, now: int): string {
    Unlines(ClusterBlock(cluster)) + NamespacesText(namespaces) + TokensText(tokens, now) + BindingsText(bindings, now)
  }

  /** A text the manager may write for these objects: they are taken in any order. */
  ghost predicate IsPolicyText(live: Live, now: int, text: string) {
    exists cluster, namespaces, tokens, bindings ::
      cluster == ClusterRolePolicies() && IsPolicyTextOf(live, now, text, cluster, namespaces, tokens, bindings)
  }

  ghost predicate IsPolicyTextOf(live: Live, now: int, text: string, cluster: seq<Line>,
      namespaces: seq<Namespace>, tokens: seq<AccessToken>, bindings: seq<RoleBinding>)
  {
    && Elements(namespaces) == live.namespaces && Elements(tokens) == live.tokens && Elements(bindings) == live.bindings
    && text == WholeText(cluster, namespaces, tokens, bindings, now)
  }

  ghost predicate TextCarries(text: string, lines: set<Line>) {
    exists raw :: text == Unlines(raw) && Carries(raw, lines)
  }

  lemma TextJoin(a: string, x: set<Line>, b: string, y: set<Line>)
    requires TextCarries(a, x) && TextCarries(b, y)
    ensures TextCarries(a + b, x + y)
  {
    var raw :| a == Unlines(raw) && Carries(raw, x);
    var raw' :| b == Unlines(raw') && Carries(raw', y);
    UnlinesAppend(raw, raw');
    CarriesAppend(raw, x, raw', y);
  }

  lemma BlockText(block: seq<string>, lines: set<Line>)
    requires Carries(block, lines)
    ensures TextCarries(Unlines(block), lines)
  {
  }

  lemma EmptyText()
    ensures TextCarries("", {})
  {
    assert Unlines([]) == "" && Carries([], {});
  }

  lemma NamespaceTextCarries(n: Namespace)
    requires CleanNamespace(n)
    ensures TextCarries(NamespaceText(n), NamespacePolicies({n}))
  {
    if IsEnabled(n) {
      NamespaceBlockCarries(n.name);
      assert NamespacePolicies({n}) == Elements(RolePoliciesForNamespace(n.name));
      BlockText(NamespaceBlock(n.name), NamespacePolicies({n}));
    } else {
      assert NamespacePolicies({n}) == {};
      EmptyText();
    }
  }

  lemma TokenTextCarries(t: AccessToken, now: int)
    requires CleanToken(t, now)
    ensures TextCarries(TokenText(t, now), TokenPolicies({t}, now))
  {
    if Expired(t.expiredAt, now) {
      assert TokenPolicies({t}, now) == {};
      EmptyText();
    } else {
      TokenBlockCarries(t);
      assert TokenPolicies({t}, now) == Elements(TokenPolicyList(t)) by {
        forall r | r in t.rules ensures PolicyFromRule(t.name, r) in TokenPolicyList(t) {
          var i :| 0 <= i < |t.rules| && t.rules[i] == r;
          assert TokenPolicyList(t)[i] == PolicyFromRule(t.name, r);
        }
      }
      BlockText(TokenBlock(t), TokenPolicies({t}, now));
    }
  }

  lemma BindingTextCarries(b: RoleBinding, now: int)
    requires CleanBinding(b, now)
    ensures TextCarries(BindingText(b, now), BindingPolicies({b}, now))
  {
    if Expired(b.expiredAt, now) {
      assert BindingPolicies({b}, now) == {};
      EmptyText();
    } else {
      BindingBlockCarries(b);
      assert BindingPolicies({b}, now) == {PolicyFromBinding(b)};
      BlockText(BindingBlock(b), BindingPolicies({b}, now));
    }
  }

  lemma {:induction false} NamespacesTextCarries(list: seq<Namespace>)
    requires forall n :: n in list ==> CleanNamespace(n)
    ensures TextCarries(NamespacesText(list), NamespacePolicies(Elements(list)))
  {
    if list == [] {
      EmptyText();
      assert NamespacePolicies(Elements(list)) == {};
    } else {
      var init, last := list[..|list| - 1], list[|list| - 1];
      assert last in list && list == init + [last];
      NamespacesTextCarries(init);
      NamespaceTextCarries(last);
      TextJoin(NamespacesText(init), NamespacePolicies(Elements(init)), NamespaceText(last), NamespacePolicies({last}));
      assert Elements(list) == Elements(init) + {last};
      assert NamespacePolicies(Elements(list)) == NamespacePolicies(Elements(init)) + NamespacePolicies({last});
    }
  }

  lemma {:induction false} TokensTextCarries(list: seq<AccessToken>, now: int)
    requires forall t :: t in list ==> CleanToken(t, now)
    ensures TextCarries(TokensText(list, now), TokenPolicies(Elements(list), now))
  {
    if list == [] {
      EmptyText();
      assert TokenPolicies(Elements(list), now) == {};
    } else {
      var init, last := list[..|list| - 1], list[|list| - 1];
      assert last in list && list == init + [last];
      TokensTextCarries(init, now);
      TokenTextCarries(last, now);
      TextJoin(TokensText(init, now), TokenPolicies(Elements(init), now), TokenText(last, now), TokenPolicies({last}, now));
      assert Elements(list) == Elements(init) + {last};
      assert TokenPolicies(Elements(list), now) == TokenPolicies(Elements(init), now) + TokenPolicies({last}, now);
    }
  }

  lemma {:induction false} BindingsTextCarries(list: seq<RoleBinding>, now: int)
    requires forall b :: b in list ==> CleanBinding(b, now)
    ensures TextCarries(BindingsText(list, now), BindingPolicies(Elements(list), now))
  {
    if list == [] {
      EmptyText();
      assert BindingPolicies(Elements(list), now) == {};
    } else {
      var init, last := list[..|list| - 1], list[|list| - 1];
      assert last in list && list == init + [last];
      BindingsTextCarries(init, now);
      BindingTextCarries(last, now);
      TextJoin(BindingsText(init, now), BindingPolicies(Elements(init), now), BindingText(last, now), BindingPolicies({last}, now));
      assert Elements(list) == Elements(init) + {last};
      assert BindingPolicies(Elements(list), now) == BindingPolicies(Elements(init), now) + BindingPolicies({last}, now);
    }
  }

  lemma CompiledAreClean(live: Live, now: int)
    requires CleanLive(live, now)
    ensures forall l :: l in Compile(live, now) ==> CleanLine(l)
  {
    ClusterPoliciesAreClean();
    forall n | n in live.namespaces && IsEnabled(n) ensures forall l :: l in RolePoliciesForNamespace(n.name) ==> CleanLine(l) {
      NamespacePoliciesAreClean(n.name);
    }
  }

  lemma JoinedText(live: Live, now: int, text: string, cluster: seq<Line>,
      namespaces: seq<Namespace>, tokens: seq<AccessToken>, bindings: seq<RoleBinding>)
    requires CleanLive(live, now) && IsPolicyTextOf(live, now, text, cluster, namespaces, tokens, bindings)
    requires forall l :: l in cluster ==> CleanLine(l)
    ensures TextCarries(text, Elements(cluster) + NamespacePolicies(live.namespaces)
      + TokenPolicies(live.tokens, now) + BindingPolicies(live.bindings, now))
  {
    ClusterBlockCarries(cluster);
    var c := Elements(cluster);
    BlockText(ClusterBlock(cluster), c);
    NamespacesTextCarries(namespaces);
    TokensTextCarries(tokens, now);
    BindingsTextCarries(bindings, now);
    var a := Unlines(ClusterBlock(cluster));
    var n, t, b := NamespacesText(namespaces), TokensText(tokens, now), BindingsText(bindings, now);
    TextJoin(a, c, n, NamespacePolicies(live.namespaces));
    TextJoin(a + n, c + NamespacePolicies(live.namespaces), t, TokenPolicies(live.tokens, now));
    TextJoin(a + n + t, c + NamespacePolicies(live.namespaces) + TokenPolicies(live.tokens, now),
      b, BindingPolicies(live.bindings, now));
  }

  /** Whatever the order, a text of clean objects loads to exactly the compiled policies. */
  lemma CleanTextIsLossless(live: Live, now: int, text: string)
    requires CleanLive(live, now) && IsPolicyText(live, now, text)
    ensures LinesOf(Load(text)) == Compile(live, now)
  {
    var cluster, namespaces, tokens, bindings :|
      cluster == ClusterRolePolicies() && IsPolicyTextOf(live, now, text, cluster, namespaces, tokens, bindings);
    ClusterPoliciesAreClean();
    JoinedText(live, now, text, cluster, namespaces, tokens, bindings);
    CompiledAreClean(live, now);
    CarriedIsLoaded(text, Compile(live, now));
  }

  lemma CarriedIsLoaded(text: string, lines: set<Line>)
    requires TextCarries(text, lines) && forall l :: l in lines ==> CleanLine(l)
    ensures LinesOf(Load(text)) == lines
  {
    var raw :| text == Unlines(raw) && Carries(raw, lines);
    LoadCarried(raw, lines);
  }
}
