/** What the compiled policies allow, said in the objects' own fields and in plain words for verbs, labels and kinds. */
module RbacMeaning {
  import opened Base
  import opened Rbac
  import opened RbacCompiler
  import opened RbacCorrect

  // ---- the objects read plainly ----

  /** The moment is not past the expiry. */
  predicate InTime(expiredAt: Option<int>, now: int) {
    expiredAt.Some? ==> now <= expiredAt.value
  }

  predicate IsSubject(sub: string, name: string, kind: SubjectType) {
    sub == (if kind.User? then "user-" else "group-") + name
  }

  predicate MaySee(level: Level, act: string) {
    act == "view" || (act == "edit" && level != Viewer) || (act == "manage" && level == Owner)
  }

  ghost predicate Enabled(live: Live, ns: string) {
    exists n :: n in live.namespaces && n.name == ns && "kalm-enabled" in n.labels && n.labels["kalm-enabled"] == "true"
  }

  ghost predicate BindingSays(live: Live, now: int, b: RoleBinding, sub: string, act: string, scope: string, obj: string) {
    && b in live.bindings && InTime(b.expiredAt, now) && IsSubject(sub, b.subject, b.subjectType)
    && (|| (b.role.InCluster? && MaySee(b.role.level, act))
        || (b.role.InNamespace? && Enabled(live, b.ns)
            && (|| (scope == b.ns && MaySee(b.role.level, act))
                || (act == "view" && obj == "storageClasses")
                || (act == "view" && obj == "registries" && b.role.level != Viewer))))
  }

  /** The object a rule names, a star standing for anything that follows. */
  ghost predicate Names(r: Rule, obj: string) {
    || (r.ns == "*" && r.name == "*")
    || ('*' !in r.kind && '*' !in r.name && obj == r.kind + "/" + r.name)
    || (exists x, y :: r.kind + "/" + r.name == x + "*" + y && '*' !in x && x <= obj)
  }

  ghost predicate RuleSays(live: Live, now: int, t: AccessToken, r: Rule, sub: string, act: string, scope: string, obj: string) {
    && t in live.tokens && r in t.rules && InTime(t.expiredAt, now) && sub == "user-" + t.name
    && act == r.verb && (r.ns == "*" || scope == r.ns) && Names(r, obj)
  }

  // ---- the two readings agree ----

  lemma LevelsAlike(level: Level, act: string)
    ensures MaySee(level, act) <==> exists l: Level :: Rank(l) <= Rank(level) && act == Act(l)
  {
    assert Rank(Viewer) < Rank(Editor) < Rank(Owner);
    assert Act(Viewer) == "view" && Act(Editor) == "edit" && Act(Owner) == "manage";
    if act == "view" { assert act == Act(Viewer); }
    if act == "edit" { assert act == Act(Editor); }
    if act == "manage" { assert act == Act(Owner); }
  }

  lemma EnabledAlike(live: Live, ns: string)
    ensures Enabled(live, ns) <==> EnabledNamespace(live, ns)
  {
    forall n: Namespace ensures IsEnabled(n) <==> "kalm-enabled" in n.labels && n.labels["kalm-enabled"] == "true" {
    }
  }

  lemma BindingAlike(live: Live, now: int, b: RoleBinding, sub: string, act: string, scope: string, obj: string)
    ensures BindingSays(live, now, b, sub, act, scope, obj) <==> BindingAllows(live, now, b, sub, act, scope, obj)
  {
    LevelsAlike(b.role.level, act);
    EnabledAlike(live, b.ns);
  }

  lemma {:induction false} FirstStarIs(x: string, y: string)
    requires '*' !in x
    ensures IndexOf(x + "*" + y, '*') == |x|
  {
    var s := x + "*" + y;
    if x != "" {
      assert s[0] == x[0] && s[1..] == x[1..] + "*" + y;
      FirstStarIs(x[1..], y);
    }
  }

  lemma StarIs(p: string, x: string, y: string)
    requires p == x + "*" + y && '*' !in x
    ensures '*' in p && IndexOf(p, '*') == |x| && p[..|x|] == x
  {
    FirstStarIs(x, y);
    assert p[|x|] == '*';
  }

  lemma StarPattern(p: string, obj: string)
    ensures (exists x, y :: p == x + "*" + y && '*' !in x && x <= obj) <==> '*' in p && p[..IndexOf(p, '*')] <= obj
  {
    if '*' in p && p[..IndexOf(p, '*')] <= obj {
      CutAtStar(p);
    }
    forall x, y | p == x + "*" + y && '*' !in x && x <= obj ensures '*' in p && p[..IndexOf(p, '*')] <= obj {
      StarIs(p, x, y);
    }
  }

  lemma CutAtStar(p: string)
    requires '*' in p
    ensures p == p[..IndexOf(p, '*')] + "*" + p[IndexOf(p, '*') + 1..] && '*' !in p[..IndexOf(p, '*')]
  {
  }

  lemma NamesAlike(r: Rule, obj: string)
    ensures Names(r, obj) <==> ObjMatch(obj, RuleObject(r))
  {
    var p := r.kind + "/" + r.name;
    ObjMatchMeaning(obj, RuleObject(r));
    StarPattern(p, obj);
    assert '*' in p <==> '*' in r.kind || '*' in r.name;
  }

  lemma RuleAlike(live: Live, now: int, t: AccessToken, r: Rule, sub: string, act: string, scope: string, obj: string)
    ensures RuleSays(live, now, t, r, sub, act, scope, obj) <==> TokenAllows(live, now, t, r, sub, act, scope, obj)
  {
    NamesAlike(r, obj);
  }

  /** For every request of every subject: the compiled policies allow exactly what some object plainly says. */
  lemma CompiledMeans(live: Live, now: int, sub: string, act: string, scope: string, obj: string)
    requires GoodNames(live) && IsSafeSubject(sub)
    ensures Enforce(Compile(live, now), sub, act, scope, obj) <==>
      || (exists b :: BindingSays(live, now, b, sub, act, scope, obj))
      || (exists t, r :: RuleSays(live, now, t, r, sub, act, scope, obj))
  {
    CompilerIsCorrect(live, now, sub, act, scope, obj);
    forall b ensures BindingSays(live, now, b, sub, act, scope, obj) <==> BindingAllows(live, now, b, sub, act, scope, obj) {
      BindingAlike(live, now, b, sub, act, scope, obj);
    }
    forall t, r ensures RuleSays(live, now, t, r, sub, act, scope, obj) <==> TokenAllows(live, now, t, r, sub, act, scope, obj) {
      RuleAlike(live, now, t, r, sub, act, scope, obj);
    }
  }

  // ---- one token alone ----

  ghost predicate Lone(live: Live, t: AccessToken, r: Rule) {
    live.tokens == {t} && live.bindings == {} && t.rules == [r] && t.expiredAt.None?
  }

  lemma LoneRuleMeans(live: Live, now: int, t: AccessToken, r: Rule, scope: string, obj: string)
    requires GoodNames(live) && Lone(live, t, r) && (r.ns == "*" || scope == r.ns)
    ensures Enforce(Compile(live, now), "user-" + t.name, r.verb, scope, obj) <==> Names(r, obj)
  {
    var sub := "user-" + t.name;
    CompiledMeans(live, now, sub, r.verb, scope, obj);
    if Names(r, obj) {
      assert RuleSays(live, now, t, r, sub, r.verb, scope, obj);
    }
  }

  /** A rule without a star allows exactly the object made of its kind, a slash and its name. */
  lemma PlainRuleAllows(live: Live, now: int, t: AccessToken, r: Rule, scope: string, obj: string)
    requires GoodNames(live) && Lone(live, t, r) && (r.ns == "*" || scope == r.ns)
    requires '*' !in r.kind && '*' !in r.name
    ensures Enforce(Compile(live, now), "user-" + t.name, r.verb, scope, obj) <==> obj == r.kind + "/" + r.name
  {
    LoneRuleMeans(live, now, t, r, scope, obj);
    assert '*' !in r.kind + "/" + r.name;
    forall x, y ensures r.kind + "/" + r.name != x + "*" + y {
      assert (x + "*" + y)[|x|] == '*';
    }
  }

  /** A rule for every name of a kind in one namespace allows exactly the objects that begin with the kind and a slash. */
  lemma StarNameAllows(live: Live, now: int, t: AccessToken, r: Rule, obj: string)
    requires GoodNames(live) && Lone(live, t, r) && r.ns != "*" && r.name == "*" && '*' !in r.kind
    ensures Enforce(Compile(live, now), "user-" + t.name, r.verb, r.ns, obj) <==> r.kind + "/" <= obj
  {
    LoneRuleMeans(live, now, t, r, r.ns, obj);
    var k := r.kind + "/";
    assert r.kind + "/" + r.name == k + "*" + "";
    forall x, y | r.kind + "/" + r.name == x + "*" + y && '*' !in x ensures x == k {
      assert (x + "*" + y)[|x|] == '*';
      assert |x| == |k|;
      assert (k + "*")[..|k|] == k && (x + "*" + y)[..|x|] == x;
    }
  }

  /** A rule for every name in every namespace allows everything, whatever its kind. */
  lemma BothStarsAllow(live: Live, now: int, t: AccessToken, r: Rule, scope: string, obj: string)
    requires GoodNames(live) && Lone(live, t, r) && r.ns == "*" && r.name == "*"
    ensures Enforce(Compile(live, now), "user-" + t.name, r.verb, scope, obj)
  {
    LoneRuleMeans(live, now, t, r, scope, obj);
  }

  /** Whatever the rule, it allows no other verb and nothing outside its namespace. */
  lemma RuleIsConfined(live: Live, now: int, t: AccessToken, r: Rule, act: string, scope: string, obj: string)
    requires GoodNames(live) && Lone(live, t, r) && (act != r.verb || (r.ns != "*" && scope != r.ns))
    ensures !Enforce(Compile(live, now), "user-" + t.name, act, scope, obj)
  {
    CompiledMeans(live, now, "user-" + t.name, act, scope, obj);
  }
}
