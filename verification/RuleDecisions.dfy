/** When do whole texts, unclean token rules in them, decide every request as the objects do? */
module RuleDecisions {
  import opened Base
  import opened PolicyText
  import opened Rbac
  import opened RbacCompiler
  import opened RbacCluster
  import opened RbacIndex
  import opened RbacText
  import opened RuleText

  /** A rule whose verb is one of the three and whose text stays on one line. */
  predicate OneLine(r: Rule) {
    CleanField(r.verb) && '\n' !in Tail(r)
  }

  /** The rule's line is read as the rule: the namespace is clean, the object clean up to its first star. */
  predicate Harmless(r: Rule) {
    CleanField(r.ns) && CleanPattern(RuleObject(r))
  }

  predicate OneLineEach(rules: seq<Rule>) {
    forall r :: r in rules ==> OneLine(r)
  }

  predicate HarmlessEach(rules: seq<Rule>) {
    forall r :: r in rules ==> Harmless(r)
  }

  ghost predicate OnOneLine(live: Live) {
    forall t :: t in live.tokens ==> OneLineEach(t.rules)
  }

  ghost predicate AllHarmless(live: Live) {
    forall t :: t in live.tokens ==> HarmlessEach(t.rules)
  }

  ghost predicate RulesAre(live: Live, rules: set<Rule>) {
    forall t :: t in live.tokens ==> forall r :: r in t.rules ==> r in rules
  }

  // ---- what the text is loaded as ----

  ghost function ReadTokens(tokens: set<AccessToken>, now: int): set<Line> {
    set t, r | t in tokens && !Expired(t.expiredAt, now) && r in t.rules :: ReadRule(t.name, r)
  }

  /** The compiled policies with every rule's line as it is read. */
  ghost function ReadLines(live: Live, now: int): set<Line> {
    Elements(ClusterRolePolicies()) + NamespacePolicies(live.namespaces)
    + ReadTokens(live.tokens, now) + BindingPolicies(live.bindings, now)
  }

  /** Whole lines of text that load to exactly these policies. */
  ghost predicate Reads(text: string, lines: set<Line>) {
    EndsLine(text) && LinesOf(Load(text)) == lines
  }

  lemma ReadsNothing()
    ensures Reads("", {})
  {
    LoadNothing();
  }

  lemma ReadsJoin(a: string, x: set<Line>, b: string, y: set<Line>)
    requires Reads(a, x) && Reads(b, y)
    ensures Reads(a + b, x + y)
  {
    LoadBoth(a, b);
    LinesOfBoth(Load(a), Load(b));
    assert b == "" ==> a + b == a;
  }

  lemma LinesOfBoth(a: seq<Fields>, b: seq<Fields>)
    ensures LinesOf(a + b) == LinesOf(a) + LinesOf(b)
  {
  }

  lemma CarriedReads(text: string, lines: set<Line>)
    requires TextCarries(text, lines) && forall l :: l in lines ==> CleanLine(l)
    ensures Reads(text, lines)
  {
    CarriedIsLoaded(text, lines);
    var raw :| text == Unlines(raw) && Carries(raw, lines);
    UnlinesEndsLine(raw);
  }

  lemma {:induction false} LoadedMember(raw: seq<string>, f: Fields)
    ensures f in LoadLines(raw) <==> exists line :: line in raw && f in LoadLine(line)
  {
    if raw != [] {
      LoadedMember(raw[1..], f);
      assert raw == [raw[0]] + raw[1..];
    }
  }

  lemma {:induction false} WrittenMember(lines: seq<Line>, s: string)
    ensures s in WriteAll(lines) <==> exists line :: line in lines && s == Write(FieldsOf(line))
  {
    if lines != [] {
      WrittenMember(lines[1..], s);
      assert lines == [lines[0]] + lines[1..];
    }
  }

  lemma RuleLineHasNoBreak(token: string, r: Rule)
    requires CleanName(token) && OneLine(r)
    ensures '\n' !in Write(FieldsOf(PolicyFromRule(token, r)))
  {
    var sub := SafeSubject(token, User);
    NameIsClean(sub);
    LineIs(sub, r.verb, r.ns, RuleObject(r));
    assert '\n' !in r.verb && '\n' !in sub && '\n' !in Tail(r);
  }

  /** The written line of one rule loads to what ReadRule says. */
  lemma RuleLineReads(token: string, r: Rule, f: Fields)
    requires CleanName(token) && OneLine(r)
    ensures f in LoadLine(Write(FieldsOf(PolicyFromRule(token, r)))) ==> LineOf(f) == Some(ReadRule(token, r))
    ensures exists g :: g in LoadLine(Write(FieldsOf(PolicyFromRule(token, r)))) && LineOf(g) == Some(ReadRule(token, r))
  {
    LoadedRule(token, r);
  }

  lemma RulesRead(t: AccessToken, raw: seq<string>)
    requires CleanName(t.name) && OneLineEach(t.rules)
    requires raw == WriteAll(TokenPolicyList(t))
    ensures forall line :: line in raw ==> '\n' !in line
    ensures LinesOf(LoadLines(raw)) == set r | r in t.rules :: ReadRule(t.name, r)
  {
    forall s ensures s in raw <==> exists r :: r in t.rules && s == Write(FieldsOf(PolicyFromRule(t.name, r))) {
      WrittenMember(TokenPolicyList(t), s);
      RuleIsWritten(t, s);
    }
    forall r | r in t.rules ensures '\n' !in Write(FieldsOf(PolicyFromRule(t.name, r))) {
      RuleLineHasNoBreak(t.name, r);
    }
    var read := set r | r in t.rules :: ReadRule(t.name, r);
    forall line ensures line in LinesOf(LoadLines(raw)) <==> line in read {
      RulesReadAt(t, raw, line);
    }
  }

  lemma RuleIsWritten(t: AccessToken, s: string)
    ensures (exists line :: line in TokenPolicyList(t) && s == Write(FieldsOf(line)))
      <==> exists r :: r in t.rules && s == Write(FieldsOf(PolicyFromRule(t.name, r)))
  {
    if r :| r in t.rules && s == Write(FieldsOf(PolicyFromRule(t.name, r))) {
      var i :| 0 <= i < |t.rules| && t.rules[i] == r;
      assert TokenPolicyList(t)[i] in TokenPolicyList(t);
    }
  }

  lemma RulesReadAt(t: AccessToken, raw: seq<string>, line: Line)
    requires CleanName(t.name) && OneLineEach(t.rules)
    requires forall s :: s in raw <==> exists r :: r in t.rules && s == Write(FieldsOf(PolicyFromRule(t.name, r)))
    ensures line in LinesOf(LoadLines(raw)) <==> exists r :: r in t.rules && line == ReadRule(t.name, r)
  {
    if line in LinesOf(LoadLines(raw)) {
      var f :| f in LoadLines(raw) && LineOf(f) == Some(line);
      LoadedMember(raw, f);
      var s :| s in raw && f in LoadLine(s);
      var r :| r in t.rules && s == Write(FieldsOf(PolicyFromRule(t.name, r)));
      RuleLineReads(t.name, r, f);
    }
    if r :| r in t.rules && line == ReadRule(t.name, r) {
      RuleLineReads(t.name, r, []);
      var g :| g in LoadLine(Write(FieldsOf(PolicyFromRule(t.name, r)))) && LineOf(g) == Some(line);
      LoadedMember(raw, g);
    }
  }

  lemma CommentAddsNothing(comment: string, raw: seq<string>)
    requires comment != "" && comment[0] == '#' && '\n' !in comment
    requires forall line :: line in raw ==> '\n' !in line
    ensures Reads(Unlines([comment] + raw), LinesOf(LoadLines(raw)))
  {
    LoadUnlines([comment] + raw);
    UnlinesEndsLine([comment] + raw);
    assert ([comment] + raw)[1..] == raw;
    assert LoadLine(comment) + LoadLines(raw) == LoadLines(raw);
  }

  lemma TokenReads(t: AccessToken, now: int)
    requires CleanName(t.name) && OneLineEach(t.rules)
    ensures Reads(TokenText(t, now), ReadTokens({t}, now))
  {
    if Expired(t.expiredAt, now) {
      ReadsNothing();
      assert ReadTokens({t}, now) == {};
    } else {
      TokenBlockReads(t);
      assert ReadTokens({t}, now) == set r | r in t.rules :: ReadRule(t.name, r);
    }
  }

  lemma TokenComment(t: AccessToken) returns (comment: string)
    requires CleanName(t.name)
    ensures TokenBlock(t) == [comment] + WriteAll(TokenPolicyList(t))
    ensures comment != "" && comment[0] == '#' && '\n' !in comment
  {
    comment := TokenBlock(t)[0];
  }

  lemma TokenBlockReads(t: AccessToken)
    requires CleanName(t.name) && OneLineEach(t.rules)
    ensures Reads(Unlines(TokenBlock(t)), set r | r in t.rules :: ReadRule(t.name, r))
  {
    var raw := WriteAll(TokenPolicyList(t));
    var comment := TokenComment(t);
    RulesRead(t, raw);
    CommentAddsNothing(comment, raw);
  }

  lemma {:induction false} TokensRead(list: seq<AccessToken>, now: int)
    requires forall t :: t in list ==> CleanName(t.name) && OneLineEach(t.rules)
    ensures Reads(TokensText(list, now), ReadTokens(Elements(list), now))
  {
    if list == [] {
      ReadsNothing();
      assert ReadTokens(Elements(list), now) == {};
    } else {
      var init, last := list[..|list| - 1], list[|list| - 1];
      assert last in list && list == init + [last];
      TokensRead(init, now);
      TokenReads(last, now);
      ReadsJoin(TokensText(init, now), ReadTokens(Elements(init), now), TokenText(last, now), ReadTokens({last}, now));
      assert Elements(list) == Elements(init) + {last};
      assert ReadTokens(Elements(list), now) == ReadTokens(Elements(init), now) + ReadTokens({last}, now);
    }
  }

  lemma NamespacesRead(list: seq<Namespace>)
    requires forall n :: n in list ==> CleanName(n.name)
    ensures Reads(NamespacesText(list), NamespacePolicies(Elements(list)))
  {
    NamespacesTextCarries(list);
    forall n | n in list ensures forall l :: l in RolePoliciesForNamespace(n.name) ==> CleanLine(l) {
      NamespacePoliciesAreClean(n.name);
    }
    CarriedReads(NamespacesText(list), NamespacePolicies(Elements(list)));
  }

  lemma BindingsRead(list: seq<RoleBinding>, now: int)
    requires forall b :: b in list ==> CleanName(b.name) && CleanName(b.ns) && (Expired(b.expiredAt, now) || CleanSubject(b))
    ensures Reads(BindingsText(list, now), BindingPolicies(Elements(list), now))
  {
    forall b | b in list ensures CleanBinding(b, now) {
      BindingIsClean(b);
    }
    BindingsTextCarries(list, now);
    CarriedReads(BindingsText(list, now), BindingPolicies(Elements(list), now));
  }

  lemma ClusterReads(cluster: seq<Line>)
    requires forall l :: l in cluster ==> CleanLine(l)
    ensures Reads(Unlines(ClusterBlock(cluster)), Elements(cluster))
  {
    ClusterBlockCarries(cluster);
    BlockText(ClusterBlock(cluster), Elements(cluster));
    CarriedReads(Unlines(ClusterBlock(cluster)), Elements(cluster));
  }

  /** Whatever the order, the text is loaded as the compiled policies with every rule as it is read. */
  lemma TextReads(live: Live, now: int, text: string)
    requires KubernetesNames(live) && SubjectsClean(live, now) && IsPolicyText(live, now, text)
    requires OnOneLine(live)
    ensures LinesOf(Load(text)) == ReadLines(live, now)
  {
    var cluster, namespaces, tokens, bindings :|
      cluster == ClusterRolePolicies() && IsPolicyTextOf(live, now, text, cluster, namespaces, tokens, bindings);
    ClusterPoliciesAreClean();
    assert forall t :: t in tokens ==> t in live.tokens;
    assert forall n :: n in namespaces ==> n in live.namespaces;
    assert forall b :: b in bindings ==> b in live.bindings;
    ClusterReads(cluster);
    NamespacesRead(namespaces);
    TokensRead(tokens, now);
    BindingsRead(bindings, now);
    FourParts(Unlines(ClusterBlock(cluster)), NamespacesText(namespaces), TokensText(tokens, now), BindingsText(bindings, now),
      Elements(cluster), NamespacePolicies(live.namespaces), ReadTokens(live.tokens, now), BindingPolicies(live.bindings, now));
  }

  lemma FourParts(a: string, n: string, t: string, b: string, w: set<Line>, x: set<Line>, y: set<Line>, z: set<Line>)
    requires Reads(a, w) && Reads(n, x) && Reads(t, y) && Reads(b, z)
    ensures Reads(a + n + t + b, w + x + y + z)
  {
    ReadsJoin(a, w, n, x);
    ReadsJoin(a + n, w + x, t, y);
    ReadsJoin(a + n + t, w + x + y, b, z);
  }

  // ---- harmless rules decide alike ----

  lemma SameMemberships(live: Live, now: int, a: string, b: string)
    ensures Member(a, b) in Compile(live, now) <==> Member(a, b) in ReadLines(live, now)
  {
  }

  /** Each line of the one has a line of the other that allows its own subject the same. */
  ghost predicate Matched(x: set<Line>, y: set<Line>) {
    forall line :: line in x && line.Permission? ==>
      exists other :: other in y && other.Permission? && other.sub == line.sub && ReadAlike(line, other)
  }

  lemma MatchedGrants(x: set<Line>, y: set<Line>, sub: string, act: string, scope: string, obj: string)
    requires Matched(x, y) && Enforce(x, sub, act, scope, obj)
    requires forall role :: HasLink(x, sub, role) ==> HasLink(y, sub, role)
    ensures Enforce(y, sub, act, scope, obj)
  {
    var line :| Grants(x, line, sub, act, scope, obj);
    var other :| other in y && other.Permission? && other.sub == line.sub && ReadAlike(line, other);
    assert Allows(line, act, scope, obj);
    assert Grants(y, other, sub, act, scope, obj);
  }

  ghost predicate AlikeEach(t: AccessToken) {
    forall r :: r in t.rules ==>
      ReadAlike(PolicyFromRule(t.name, r), ReadRule(t.name, r)) && ReadAlike(ReadRule(t.name, r), PolicyFromRule(t.name, r))
  }

  lemma HarmlessIsAlike(t: AccessToken)
    requires CleanName(t.name) && OneLineEach(t.rules) && HarmlessEach(t.rules)
    ensures AlikeEach(t)
  {
    forall r | r in t.rules ensures ReadAlike(PolicyFromRule(t.name, r), ReadRule(t.name, r)) {
      RuleIsReadAlikeIff(t.name, r);
    }
  }

  lemma CompiledIsMatched(live: Live, now: int)
    requires KubernetesNames(live) && OnOneLine(live) && AllHarmless(live)
    ensures Matched(Compile(live, now), ReadLines(live, now))
  {
    forall t | t in live.tokens ensures AlikeEach(t) { HarmlessIsAlike(t); }
    var x, y := Compile(live, now), ReadLines(live, now);
    forall line | line in x && line.Permission?
      ensures exists other :: other in y && other.Permission? && other.sub == line.sub && ReadAlike(line, other)
    {
      CounterpartRead(live, now, line);
    }
  }

  lemma ReadIsMatched(live: Live, now: int)
    requires KubernetesNames(live) && OnOneLine(live) && AllHarmless(live)
    ensures Matched(ReadLines(live, now), Compile(live, now))
  {
    forall t | t in live.tokens ensures AlikeEach(t) { HarmlessIsAlike(t); }
    var x, y := Compile(live, now), ReadLines(live, now);
    forall line | line in y && line.Permission?
      ensures exists other :: other in x && other.Permission? && other.sub == line.sub && ReadAlike(line, other)
    {
      CounterpartCompiled(live, now, line);
    }
  }

  lemma AlikeItself(line: Line)
    requires line.Permission?
    ensures ReadAlike(line, line)
  {
  }

  lemma CounterpartRead(live: Live, now: int, line: Line)
    requires line in Compile(live, now) && line.Permission?
    requires forall t :: t in live.tokens ==> AlikeEach(t)
    ensures exists other :: other in ReadLines(live, now) && other.Permission? && other.sub == line.sub && ReadAlike(line, other)
  {
    if line in TokenPolicies(live.tokens, now) {
      var t, r :| t in live.tokens && !Expired(t.expiredAt, now) && r in t.rules && line == PolicyFromRule(t.name, r);
      var other := ReadRule(t.name, r);
      assert other in ReadTokens(live.tokens, now) && other.sub == line.sub;
    } else {
      AlikeItself(line);
      assert line in ReadLines(live, now);
    }
  }

  lemma CounterpartCompiled(live: Live, now: int, line: Line)
    requires line in ReadLines(live, now) && line.Permission?
    requires forall t :: t in live.tokens ==> AlikeEach(t)
    ensures exists other :: other in Compile(live, now) && other.Permission? && other.sub == line.sub && ReadAlike(line, other)
  {
    if line in ReadTokens(live.tokens, now) {
      var t, r :| t in live.tokens && !Expired(t.expiredAt, now) && r in t.rules && line == ReadRule(t.name, r);
      var other := PolicyFromRule(t.name, r);
      assert other in TokenPolicies(live.tokens, now) && other.sub == line.sub;
    } else {
      AlikeItself(line);
      assert line in Compile(live, now);
    }
  }

  lemma MatchedDecides(x: set<Line>, y: set<Line>, sub: string, act: string, scope: string, obj: string)
    requires Matched(x, y) && forall a, b :: Member(a, b) in x <==> Member(a, b) in y
    ensures Enforce(x, sub, act, scope, obj) ==> Enforce(y, sub, act, scope, obj)
  {
    forall role ensures HasLink(x, sub, role) <==> HasLink(y, sub, role) {
      SameRoles(x, y, sub, role, MAX_HIERARCHY_LEVEL);
    }
    if Enforce(x, sub, act, scope, obj) { MatchedGrants(x, y, sub, act, scope, obj); }
  }

  lemma CompiledDecides(live: Live, now: int, sub: string, act: string, scope: string, obj: string)
    requires KubernetesNames(live) && OnOneLine(live) && AllHarmless(live)
    ensures Enforce(Compile(live, now), sub, act, scope, obj) ==> Enforce(ReadLines(live, now), sub, act, scope, obj)
  {
    forall a, b { SameMemberships(live, now, a, b); }
    CompiledIsMatched(live, now);
    MatchedDecides(Compile(live, now), ReadLines(live, now), sub, act, scope, obj);
  }

  lemma ReadDecides(live: Live, now: int, sub: string, act: string, scope: string, obj: string)
    requires KubernetesNames(live) && OnOneLine(live) && AllHarmless(live)
    ensures Enforce(ReadLines(live, now), sub, act, scope, obj) ==> Enforce(Compile(live, now), sub, act, scope, obj)
  {
    forall a, b { SameMemberships(live, now, a, b); }
    ReadIsMatched(live, now);
    MatchedDecides(ReadLines(live, now), Compile(live, now), sub, act, scope, obj);
  }

  lemma HarmlessRulesDecide(live: Live, now: int)
    requires KubernetesNames(live) && SubjectsClean(live, now)
    requires OnOneLine(live) && AllHarmless(live)
    ensures TextDecides(live, now)
  {
    forall text, sub, act, scope, obj | IsPolicyText(live, now, text) && IsSafeSubject(sub)
      ensures Decides(text, live, now, sub, act, scope, obj)
    {
      TextReads(live, now, text);
      CompiledDecides(live, now, sub, act, scope, obj);
      ReadDecides(live, now, sub, act, scope, obj);
      ClusterNamespaceMeansCluster(live, now, sub, act, scope, obj);
    }
  }

  // ---- and no others do ----

  function LoneToken(name: string, r: Rule): AccessToken {
    AccessToken(name, [r], None)
  }

  ghost function Lone(name: string, r: Rule): Live {
    Live({}, {LoneToken(name, r)}, {})
  }

  lemma LoneLines(name: string, r: Rule, now: int)
    ensures ReadLines(Lone(name, r), now) == Elements(ClusterRolePolicies()) + {ReadRule(name, r)}
  {
    assert ReadTokens(Lone(name, r).tokens, now) == {ReadRule(name, r)} by {
      assert LoneToken(name, r).rules == [r];
    }
    assert NamespacePolicies({}) == {} && BindingPolicies({}, now) == {};
  }

  /** With its own line alone a token may do what that line, as it is read, allows. */
  lemma LoneDecides(name: string, r: Rule, now: int, act: string, scope: string, obj: string)
    ensures Enforce(ReadLines(Lone(name, r), now), SafeSubject(name, User), act, scope, obj)
      <==> Allows(ReadRule(name, r), act, scope, obj)
  {
    var lines, sub, line := ReadLines(Lone(name, r), now), SafeSubject(name, User), ReadRule(name, r);
    LoneLines(name, r, now);
    OnlyItself(lines, sub, name, r);
    if Allows(line, act, scope, obj) {
      assert HasRole(lines, sub, sub, MAX_HIERARCHY_LEVEL);
      assert Grants(lines, line, sub, act, scope, obj);
    }
    if other :| Grants(lines, other, sub, act, scope, obj) {
      assert other.sub == sub;
      if other != line { NoClusterLineOf(sub, other); }
    }
  }

  lemma NoClusterLineOf(sub: string, line: Line)
    requires IsSafeSubject(sub) && line in ClusterRolePolicies()
    ensures line.sub != sub
  {
    forall level: Level { SafeSubjectsAreNoRoles(sub, CLUSTER, level); }
  }

  lemma OnlyItself(lines: set<Line>, sub: string, name: string, r: Rule)
    requires lines == Elements(ClusterRolePolicies()) + {ReadRule(name, r)} && IsSafeSubject(sub)
    ensures forall role :: HasLink(lines, sub, role) ==> role == sub
  {
    forall via ensures Member(sub, via) !in lines {
      if Member(sub, via) in lines {
        NoClusterLineOf(sub, Member(sub, via));
      }
    }
  }

  lemma LoneIsAllowed(name: string, r: Rule, now: int, act: string, scope: string, obj: string)
    ensures Allowed(PromotedLive(Lone(name, r)), now, SafeSubject(name, User), act, scope, obj)
      <==> Allows(PolicyFromRule(name, r), act, scope, obj)
  {
    var live, t, sub := PromotedLive(Lone(name, r)), LoneToken(name, r), SafeSubject(name, User);
    assert live.bindings == {} && live.tokens == {t} && r in t.rules;
    if Allows(PolicyFromRule(name, r), act, scope, obj) {
      assert TokenAllows(live, now, t, r, sub, act, scope, obj);
    }
  }

  lemma HarmfulRuleMisleads(name: string, r: Rule, now: int)
    requires CleanName(name) && OneLine(r) && !Harmless(r)
    ensures KubernetesNames(Lone(name, r)) && SubjectsClean(Lone(name, r), now) && !TextDecides(Lone(name, r), now)
  {
    LoneIsLive(name, r, now);
    RuleIsReadAlikeIff(name, r);
    var act, scope, obj :|
      Allows(PolicyFromRule(name, r), act, scope, obj) != Allows(ReadRule(name, r), act, scope, obj);
    LoneMisleads(name, r, now, act, scope, obj);
  }

  lemma LoneIsLive(name: string, r: Rule, now: int)
    requires CleanName(name) && OneLine(r)
    ensures KubernetesNames(Lone(name, r)) && SubjectsClean(Lone(name, r), now) && OnOneLine(Lone(name, r))
  {
  }

  lemma LoneMisleads(name: string, r: Rule, now: int, act: string, scope: string, obj: string)
    requires KubernetesNames(Lone(name, r)) && SubjectsClean(Lone(name, r), now) && OnOneLine(Lone(name, r))
    requires Allows(PolicyFromRule(name, r), act, scope, obj) != Allows(ReadRule(name, r), act, scope, obj)
    ensures !TextDecides(Lone(name, r), now)
  {
    var text := SomeText(Lone(name, r), now);
    LoneTextErrs(name, r, now, act, scope, obj, text);
    OneErrorIsEnough(text, Lone(name, r), now, SafeSubject(name, User), act, scope, obj);
  }

  lemma OneErrorIsEnough(text: string, live: Live, now: int, sub: string, act: string, scope: string, obj: string)
    requires IsPolicyText(live, now, text) && IsSafeSubject(sub) && !Decides(text, live, now, sub, act, scope, obj)
    ensures !TextDecides(live, now)
  {
  }

  lemma LoneTextErrs(name: string, r: Rule, now: int, act: string, scope: string, obj: string, text: string)
    requires KubernetesNames(Lone(name, r)) && SubjectsClean(Lone(name, r), now) && OnOneLine(Lone(name, r))
    requires Allows(PolicyFromRule(name, r), act, scope, obj) != Allows(ReadRule(name, r), act, scope, obj)
    requires IsPolicyText(Lone(name, r), now, text)
    ensures !Decides(text, Lone(name, r), now, SafeSubject(name, User), act, scope, obj)
  {
    TextReads(Lone(name, r), now, text);
    LoneDecides(name, r, now, act, scope, obj);
    LoneIsAllowed(name, r, now, act, scope, obj);
  }

  /** Tokens with such rules, any namespaces and clean subjects. */
  ghost predicate Holds(live: Live, now: int, rules: set<Rule>) {
    KubernetesNames(live) && SubjectsClean(live, now) && RulesAre(live, rules)
  }

  lemma OneHarmfulIsEnough(rules: set<Rule>, r: Rule, now: int) returns (live: Live)
    requires r in rules && OneLine(r) && !Harmless(r)
    ensures Holds(live, now, rules) && !TextDecides(live, now)
  {
    live := Lone("t", r);
    HarmfulRuleMisleads("t", r, now);
  }

  lemma HeldRulesDecide(live: Live, now: int, rules: set<Rule>)
    requires Holds(live, now, rules) && forall r :: r in rules ==> OneLine(r) && Harmless(r)
    ensures TextDecides(live, now)
  {
    HarmlessRulesDecide(live, now);
  }

  /**
   Given the rules tokens may have, each on one line: every text of every set of tokens with such rules, and of any
   namespaces and clean subjects, decides every request as the objects do, if and only if every rule's namespace is
   clean and its object is clean up to its first star.
   */
  lemma RulesDecideIff(rules: set<Rule>, now: int)
    requires forall r :: r in rules ==> OneLine(r)
    ensures (forall live :: Holds(live, now, rules) ==> TextDecides(live, now)) <==> forall r :: r in rules ==> Harmless(r)
  {
    if forall r :: r in rules ==> Harmless(r) {
      forall live | Holds(live, now, rules) ensures TextDecides(live, now) {
        HeldRulesDecide(live, now, rules);
      }
    } else {
      var r :| r in rules && !Harmless(r);
      var live := OneHarmfulIsEnough(rules, r, now);
    }
  }
}
