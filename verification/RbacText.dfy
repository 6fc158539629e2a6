/**
 Policies travel from the objects to the enforcer as text, and subjects and rules are free text. This module
 proves exactly when nothing is lost or changed on the way.
 */
module RbacText {
  import opened Base
  import opened PolicyText
  import opened Rbac
  import opened RbacCompiler
  import opened RbacCluster
  import opened RbacIndex

  /** What Kubernetes guarantees: object names are lower-case and hold no separator. */
  ghost predicate KubernetesNames(live: Live) {
    && NamespacesNamed(live)
    && (forall n :: n in live.namespaces ==> CleanName(n.name))
    && (forall t :: t in live.tokens ==> CleanName(t.name))
    && (forall b :: b in live.bindings ==> CleanName(b.name) && CleanName(b.ns) && NamespaceName(b.ns))
  }

  predicate CleanRule(r: Rule) {
    CleanField(r.verb) && CleanField(r.ns) && CleanField(RuleObject(r))
  }

  predicate CleanSubject(b: RoleBinding) {
    CleanField(SafeSubject(b.subject, b.subjectType))
  }

  ghost predicate RulesClean(live: Live, now: int) {
    forall t :: t in live.tokens && !Expired(t.expiredAt, now) ==> CleanRules(t.rules)
  }

  predicate CleanRules(rules: seq<Rule>) {
    forall r :: r in rules ==> CleanRule(r)
  }

  ghost predicate SubjectsClean(live: Live, now: int) {
    forall b :: b in live.bindings && !Expired(b.expiredAt, now) ==> CleanSubject(b)
  }

  // ---- clean free text ----

  lemma MemberIsCleanIff(sub: string, role: string)
    requires CleanField(role)
    ensures CleanLine(Member(sub, role)) <==> CleanField(sub)
  {
    if CleanField(sub) {
      MemberIsClean(sub, role);
    }
    var f := FieldsOf(Member(sub, role));
    assert f[1] == sub && f[1] in f;
  }

  lemma RoleIsClean(role: Role, ns: string)
    requires CleanName(ns)
    ensures CleanField(RoleValueToPolicyValue(role, ns))
  {
    NameIsClean(CLUSTER);
    CleanNamesMakeCleanRoles(ns, role.level);
    CleanNamesMakeCleanRoles(CLUSTER, role.level);
  }

  lemma BindingIsClean(b: RoleBinding)
    requires CleanName(b.ns)
    ensures CleanLine(PolicyFromBinding(b)) <==> CleanSubject(b)
  {
    RoleIsClean(b.role, b.ns);
    MemberIsCleanIff(SafeSubject(b.subject, b.subjectType), RoleValueToPolicyValue(b.role, b.ns));
  }

  lemma RuleIsClean(token: string, r: Rule)
    requires CleanName(token)
    ensures CleanLine(PolicyFromRule(token, r)) <==> CleanRule(r)
  {
    var line := PolicyFromRule(token, r);
    NameIsClean(line.sub);
    if CleanRule(r) {
      PermissionIsClean(line.sub, line.act, line.scope, line.obj);
    }
    var f := FieldsOf(line);
    assert f[2] in f && f[3] in f && f[4] in f;
  }

  lemma CleanLiveIff(live: Live, now: int)
    requires KubernetesNames(live)
    ensures CleanLive(live, now) <==> RulesClean(live, now) && SubjectsClean(live, now)
  {
    forall b | b in live.bindings ensures CleanBinding(b, now) <==> Expired(b.expiredAt, now) || CleanSubject(b) {
      BindingIsClean(b);
    }
    forall t | t in live.tokens ensures CleanToken(t, now) <==> Expired(t.expiredAt, now) || CleanRules(t.rules) {
      forall r | r in t.rules ensures CleanLine(PolicyFromRule(t.name, r)) <==> CleanRule(r) {
        RuleIsClean(t.name, r);
      }
    }
  }

  /** Whatever the text, nothing with an unclean field is ever loaded. */
  lemma LoadedIsClean(text: string, line: Line)
    requires line in LinesOf(Load(text))
    ensures match line
      case Permission(sub, act, scope, obj) => CleanField(sub) && CleanField(act) && CleanField(scope) && CleanField(obj)
      case Member(sub, role) => CleanField(sub) && CleanField(role)
  {
    LoadedLinesAreClean(Split(text, '\n'));
    var f :| f in Load(text) && LineOf(f) == Some(line);
    assert CleanPolicy(f);
    assert f[1] in f && f[2] in f;
    if line.Permission? {
      assert f[3] in f && f[4] in f;
    }
  }

  /**
   The policies in force are the compiled ones, in whatever order the text was written, if and only if every
   unexpired subject and rule is free of separators, line breaks and outer space.
   */
  lemma TextIsLosslessIff(live: Live, now: int)
    requires KubernetesNames(live)
    ensures (forall text :: IsPolicyText(live, now, text) ==> LinesOf(Load(text)) == Compile(live, now))
      <==> RulesClean(live, now) && SubjectsClean(live, now)
  {
    CleanLiveIff(live, now);
    if CleanLive(live, now) {
      forall text | IsPolicyText(live, now, text) ensures LinesOf(Load(text)) == Compile(live, now) {
        CleanTextIsLossless(live, now, text);
      }
    }
    if forall text :: IsPolicyText(live, now, text) ==> LinesOf(Load(text)) == Compile(live, now) {
      var text := SomeText(live, now);
      LosslessIsClean(live, now, text);
    }
  }

  lemma LosslessIsClean(live: Live, now: int, text: string)
    requires LinesOf(Load(text)) == Compile(live, now)
    ensures RulesClean(live, now) && SubjectsClean(live, now)
  {
    forall b | b in live.bindings && !Expired(b.expiredAt, now) ensures CleanSubject(b) {
      assert PolicyFromBinding(b) in Compile(live, now);
      LoadedIsClean(text, PolicyFromBinding(b));
    }
    forall t | t in live.tokens && !Expired(t.expiredAt, now) ensures CleanRules(t.rules) {
      forall r | r in t.rules ensures CleanRule(r) {
        assert PolicyFromRule(t.name, r) in Compile(live, now);
        LoadedIsClean(text, PolicyFromRule(t.name, r));
      }
    }
  }

  lemma SomeText(live: Live, now: int) returns (text: string)
    ensures IsPolicyText(live, now, text)
  {
    var namespaces := SomeOrder(live.namespaces);
    var tokens := SomeOrder(live.tokens);
    var bindings := SomeOrder(live.bindings);
    assert Elements(namespaces) == live.namespaces && Elements(tokens) == live.tokens && Elements(bindings) == live.bindings;
    var cluster := ClusterRolePolicies();
    text := WholeText(cluster, namespaces, tokens, bindings, now);
    assert IsPolicyTextOf(live, now, text, cluster, namespaces, tokens, bindings);
  }

  // ---- decisions ----

  ghost predicate Decides(text: string, live: Live, now: int, sub: string, act: string, scope: string, obj: string) {
    Enforce(LinesOf(Load(text)), sub, act, scope, obj) <==> Allowed(PromotedLive(live), now, sub, act, scope, obj)
  }

  /** Every text of these objects decides every request as the objects read directly. */
  ghost predicate TextDecides(live: Live, now: int) {
    forall text, sub, act, scope, obj :: IsPolicyText(live, now, text) && IsSafeSubject(sub) ==>
      Decides(text, live, now, sub, act, scope, obj)
  }

  lemma CleanTextDecides(live: Live, now: int)
    requires KubernetesNames(live) && RulesClean(live, now) && SubjectsClean(live, now)
    ensures TextDecides(live, now)
  {
    CleanLiveIff(live, now);
    forall text, sub, act, scope, obj | IsPolicyText(live, now, text) && IsSafeSubject(sub)
      ensures Decides(text, live, now, sub, act, scope, obj)
    {
      CleanTextIsLossless(live, now, text);
      ClusterNamespaceMeansCluster(live, now, sub, act, scope, obj);
    }
  }

  /** No text can give an unclean subject anything. */
  lemma UncleanSubjectIsRefused(text: string, sub: string, act: string, scope: string, obj: string)
    requires !CleanField(sub)
    ensures !Enforce(LinesOf(Load(text)), sub, act, scope, obj)
  {
    var lines := LinesOf(Load(text));
    if line :| Grants(lines, line, sub, act, scope, obj) {
      LoadedIsClean(text, line);
      var via :| Member(sub, via) in lines;
      LoadedIsClean(text, Member(sub, via));
    }
  }

  /** The binding's role allows its subject to look at its own namespace. */
  lemma RoleIsOfUse(live: Live, now: int, b: RoleBinding)
    requires b in live.bindings && !Expired(b.expiredAt, now) && EnabledNamespace(live, b.ns)
    ensures Allowed(PromotedLive(live), now, SafeSubject(b.subject, b.subjectType), VIEW, b.ns, ALL)
  {
    var p := Promoted(b);
    assert p in PromotedLive(live).bindings;
    assert Rank(Viewer) <= Rank(p.role.level) && Act(Viewer) == VIEW;
    assert EnabledNamespace(PromotedLive(live), b.ns);
    assert BindingAllows(PromotedLive(live), now, p, SafeSubject(b.subject, b.subjectType), VIEW, b.ns, ALL);
  }

  /** An unexpired binding of an unclean subject in an enabled namespace is lost. */
  lemma UncleanBindingIsLost(live: Live, now: int, b: RoleBinding)
    requires b in live.bindings && !Expired(b.expiredAt, now) && EnabledNamespace(live, b.ns) && !CleanSubject(b)
    ensures !TextDecides(live, now)
  {
    var sub := SafeSubject(b.subject, b.subjectType);
    var text := SomeText(live, now);
    UncleanSubjectIsRefused(text, sub, VIEW, b.ns, ALL);
    RoleIsOfUse(live, now, b);
    assert !Decides(text, live, now, sub, VIEW, b.ns, ALL);
  }

  /** The same tokens and bindings with other namespaces, or other labels on them. */
  ghost predicate NamespacesAre(live: Live, namespaces: set<Namespace>, other: Live) {
    other == live.(namespaces := namespaces) && KubernetesNames(other)
  }

  /**
   With clean rules: whichever namespaces are enabled, the text decides every request as the objects read directly,
   if and only if every unexpired subject is clean.
   */
  lemma SubjectsDecideIff(live: Live, now: int)
    requires KubernetesNames(live) && RulesClean(live, now)
    ensures (forall namespaces, other :: NamespacesAre(live, namespaces, other) ==> TextDecides(other, now))
      <==> SubjectsClean(live, now)
  {
    if SubjectsClean(live, now) {
      forall namespaces, other | NamespacesAre(live, namespaces, other) ensures TextDecides(other, now) {
        CleanTextDecides(other, now);
      }
    }
    if forall namespaces, other :: NamespacesAre(live, namespaces, other) ==> TextDecides(other, now) {
      forall b | b in live.bindings && !Expired(b.expiredAt, now) ensures CleanSubject(b) {
        var n := Namespace(b.ns, map["kalm-enabled" := "true"]);
        var other := live.(namespaces := {n});
        assert NamespacesAre(live, {n}, other);
        assert IsEnabled(n) && n in other.namespaces && EnabledNamespace(other, b.ns);
        if !CleanSubject(b) {
          UncleanBindingIsLost(other, now, b);
        }
      }
    }
  }

  // ---- what becomes of a subject with a comma ----

  /** Whole lines followed by anything load to what the lines load to, followed by what the rest loads to. */
  lemma {:induction false} LoadAfterBreak(a: string, b: string)
    requires a != "" && a[|a| - 1] == '\n'
    ensures Load(a + b) == Load(a) + Load(b)
    decreases |a|
  {
    var i := FirstBreak(a);
    var first, rest := a[..i], a[i + 1..];
    if rest == "" {
      LoadNothing();
      assert rest + b == b;
    } else {
      assert rest[|rest| - 1] == a[|a| - 1];
      LoadAfterBreak(rest, b);
    }
    LoadOneMore(first, rest, a, b);
  }

  lemma LoadOneMore(first: string, rest: string, a: string, b: string)
    requires '\n' !in first && a == first + ['\n'] + rest && Load(rest + b) == Load(rest) + Load(b)
    ensures Load(a + b) == Load(a) + Load(b)
  {
    OneLineOff(first, rest, a);
    AppendedText(first, rest, a, b);
    OneLineOff(first, rest + b, a + b);
    Regroup(LoadLine(first), Load(rest), Load(b));
  }

  lemma AppendedText(first: string, rest: string, a: string, b: string)
    requires a == first + ['\n'] + rest
    ensures a + b == first + ['\n'] + (rest + b)
  {
  }

  lemma LoadNothing()
    ensures Load("") == []
  {
    assert Split("", '\n') == [""];
    LoadOne("");
  }

  lemma OneLineOff(first: string, rest: string, all: string)
    requires '\n' !in first && all == first + ['\n'] + rest
    ensures Load(all) == LoadLine(first) + Load(rest)
  {
    SplitFirst(first, '\n', rest);
    assert ([first] + Split(rest, '\n'))[1..] == Split(rest, '\n');
  }

  lemma {:induction false} FirstBreak(a: string) returns (i: nat)
    requires '\n' in a
    ensures i < |a| && a[i] == '\n' && '\n' !in a[..i]
  {
    if a[0] == '\n' {
      i := 0;
    } else {
      assert a == [a[0]] + a[1..];
      var j := FirstBreak(a[1..]);
      i := j + 1;
      assert a[..i] == [a[0]] + a[1..][..j];
    }
  }

  predicate EndsLine(s: string) {
    s == "" || s[|s| - 1] == '\n'
  }

  lemma {:induction false} UnlinesEndsLine(lines: seq<string>)
    ensures EndsLine(Unlines(lines))
  {
    if lines != [] {
      UnlinesEndsLine(lines[1..]);
    }
  }

  lemma {:induction false} NamespacesTextEndsLine(list: seq<Namespace>)
    ensures EndsLine(NamespacesText(list))
  {
    if list != [] {
      NamespacesTextEndsLine(list[..|list| - 1]);
      UnlinesEndsLine(NamespaceBlock(list[|list| - 1].name));
    }
  }

  lemma {:induction false} TokensTextEndsLine(list: seq<AccessToken>, now: int)
    ensures EndsLine(TokensText(list, now))
  {
    if list != [] {
      TokensTextEndsLine(list[..|list| - 1], now);
      UnlinesEndsLine(TokenBlock(list[|list| - 1]));
    }
  }

  lemma {:induction false} BindingsTextEndsLine(list: seq<RoleBinding>, now: int)
    ensures EndsLine(BindingsText(list, now))
  {
    if list != [] {
      BindingsTextEndsLine(list[..|list| - 1], now);
      UnlinesEndsLine(BindingBlock(list[|list| - 1]));
    }
  }

  lemma LoadBoth(a: string, b: string)
    requires EndsLine(a)
    ensures Load(a + b) == Load(a) + Load(b)
  {
    if a == "" {
      LoadNothing();
      assert a + b == b;
    } else {
      LoadAfterBreak(a, b);
    }
  }

  lemma BindingsLoadBoth(list: seq<RoleBinding>, now: int)
    requires list != []
    ensures Load(BindingsText(list, now)) ==
      Load(BindingsText(list[..|list| - 1], now)) + Load(BindingText(list[|list| - 1], now))
  {
    BindingsTextEndsLine(list[..|list| - 1], now);
    LoadBoth(BindingsText(list[..|list| - 1], now), BindingText(list[|list| - 1], now));
  }

  /** What a binding's own lines load to is loaded from the bindings' text. */
  lemma {:induction false} BindingIsLoaded(list: seq<RoleBinding>, now: int, i: nat, f: Fields)
    requires i < |list| && f in Load(BindingText(list[i], now))
    ensures f in Load(BindingsText(list, now))
  {
    BindingsLoadBoth(list, now);
    if i < |list| - 1 {
      BindingIsLoaded(list[..|list| - 1], now, i, f);
    }
  }

  lemma BindingIsInForce(live: Live, now: int, text: string, b: RoleBinding, f: Fields)
    requires IsPolicyText(live, now, text) && b in live.bindings && f in Load(BindingText(b, now))
    ensures f in Load(text)
  {
    var cluster, namespaces, tokens, bindings :|
      cluster == ClusterRolePolicies() && IsPolicyTextOf(live, now, text, cluster, namespaces, tokens, bindings);
    var i :| 0 <= i < |bindings| && bindings[i] == b;
    BindingIsLoaded(bindings, now, i, f);
    LastPartIsLoaded(cluster, namespaces, tokens, now, BindingsText(bindings, now), f);
  }

  /** The cluster's own policies are loaded from every text, whatever else is in it. */
  lemma ClusterLinesAreLoaded(live: Live, now: int, text: string, line: Line)
    requires IsPolicyText(live, now, text) && line in ClusterRolePolicies()
    ensures line in LinesOf(Load(text))
  {
    var cluster, namespaces, tokens, bindings :|
      cluster == ClusterRolePolicies() && IsPolicyTextOf(live, now, text, cluster, namespaces, tokens, bindings);
    ClusterPoliciesAreClean();
    HeadIsLoaded(cluster, line);
    FirstPartIsLoaded(Unlines(ClusterBlock(cluster)), NamespacesText(namespaces), TokensText(tokens, now),
      BindingsText(bindings, now), FieldsOf(line));
    LineOfFields(line);
  }

  lemma HeadIsLoaded(cluster: seq<Line>, line: Line)
    requires line in cluster && forall l :: l in cluster ==> CleanLine(l)
    ensures EndsLine(Unlines(ClusterBlock(cluster))) && FieldsOf(line) in Load(Unlines(ClusterBlock(cluster)))
  {
    UnlinesEndsLine(ClusterBlock(cluster));
    ClusterBlockCarries(cluster);
    LoadUnlines(ClusterBlock(cluster));
    LineOfFields(line);
    assert LineOf(FieldsOf(line)).value in Elements(cluster);
  }

  lemma FirstPartIsLoaded(head: string, a: string, b: string, c: string, f: Fields)
    requires EndsLine(head) && f in Load(head)
    ensures f in Load(head + a + b + c)
  {
    Regroup(head, a, b);
    Regroup(head, a + b, c);
    LoadBoth(head, a + b + c);
  }

  lemma LastPartIsLoaded(cluster: seq<Line>, namespaces: seq<Namespace>, tokens: seq<AccessToken>, now: int,
      last: string, f: Fields)
    requires f in Load(last)
    ensures f in Load(Unlines(ClusterBlock(cluster)) + NamespacesText(namespaces) + TokensText(tokens, now) + last)
  {
    UnlinesEndsLine(ClusterBlock(cluster));
    NamespacesTextEndsLine(namespaces);
    TokensTextEndsLine(tokens, now);
    LoadBoth(Unlines(ClusterBlock(cluster)) + NamespacesText(namespaces) + TokensText(tokens, now), last);
  }

  /** A subject "x, y" is read as x being a member of y; the role it was given is dropped. */
  lemma CommaCutsSubject(live: Live, now: int, text: string, b: RoleBinding, first: string, second: string)
    requires IsPolicyText(live, now, text) && b in live.bindings && !Expired(b.expiredAt, now)
    requires CleanName(b.name) && CleanName(b.ns) && CleanField(first) && CleanField(second)
    requires SafeSubject(b.subject, b.subjectType) == first + ", " + second
    ensures Member(first, second) in LinesOf(Load(text))
  {
    var cut := ["g", first, second, RoleValueToPolicyValue(b.role, b.ns)];
    CutIsLoaded(now, b, first, second, cut);
    BindingIsInForce(live, now, text, b, cut);
    assert LineOf(cut) == Some(Member(first, second));
  }

  lemma CutIsLoaded(now: int, b: RoleBinding, first: string, second: string, cut: Fields)
    requires !Expired(b.expiredAt, now) && CleanName(b.name) && CleanName(b.ns)
    requires CleanField(first) && CleanField(second) && SafeSubject(b.subject, b.subjectType) == first + ", " + second
    requires cut == ["g", first, second, RoleValueToPolicyValue(b.role, b.ns)]
    ensures cut in Load(BindingText(b, now))
  {
    RoleIsClean(b.role, b.ns);
    NameIsClean("g");
    CutLine(first, second, RoleValueToPolicyValue(b.role, b.ns), b);
    CommentIsComment(b);
    CommentThenLine(BindingComment(b), cut);
  }

  lemma CommentIsComment(b: RoleBinding)
    requires CleanName(b.name)
    ensures BindingComment(b) != "" && BindingComment(b)[0] == '#' && '\n' !in BindingComment(b)
  {
  }

  lemma CutLine(first: string, second: string, role: string, b: RoleBinding)
    requires SafeSubject(b.subject, b.subjectType) == first + ", " + second
    requires role == RoleValueToPolicyValue(b.role, b.ns)
    ensures WriteAll([PolicyFromBinding(b)]) == [Write(["g", first, second, role])]
  {
    WriteAllOne(PolicyFromBinding(b));
    FieldsRunTogether(first, second, role);
  }

  lemma WriteAllOne(line: Line)
    ensures WriteAll([line]) == [Write(FieldsOf(line))]
  {
    assert [line][1..] == [] && WriteAll([]) == [];
  }

  lemma FieldsRunTogether(first: string, second: string, role: string)
    ensures Write(["g", first + ", " + second, role]) == Write(["g", first, second, role])
  {
    WriteThree("g", first + ", " + second, role);
    WriteFour("g", first, second, role);
    Regroup("g, ", first + ", ", second);
  }

  lemma WriteThree(a: string, b: string, c: string)
    ensures Write([a, b, c]) == a + ", " + b + ", " + c
  {
    assert [a, b, c][1..] == [b, c] && [b, c][1..] == [c];
    assert Join([c], ", ") == c;
    assert Join([b, c], ", ") == b + ", " + c;
  }

  lemma WriteFour(a: string, b: string, c: string, d: string)
    ensures Write([a, b, c, d]) == a + ", " + b + ", " + c + ", " + d
  {
    assert [a, b, c, d][1..] == [b, c, d];
    WriteThree(b, c, d);
  }

  lemma CommentThenLine(comment: string, fields: Fields)
    requires comment != "" && comment[0] == '#' && '\n' !in comment && CleanPolicy(fields)
    ensures fields in Load(Unlines([comment] + [Write(fields)]))
  {
    WrittenHasNoBreak(fields);
    LoadUnlines([comment] + [Write(fields)]);
    LoadWritten(fields);
    LoadEachAppend([comment], [Write(fields)], LoadLine);
    LoadOne(Write(fields));
  }
}
