/**
 The order Kalm sorts a host's rules in, and what "first match wins" then means: the rule that serves a request
 has a longest path prefix among all rules that accept it.
 */
module RouteOrder {
  import opened Base
  import opened RouteRules

  /** Go's `a > b` on strings. */
  predicate Above(a: string, b: string) {
    a != "" && (b == "" || a[0] > b[0] || (a[0] == b[0] && Above(a[1..], b[1..])))
  }

  datatype Verdict = Before | NotBefore | Panic

  function Verdicts(before: bool): Verdict {
    if before then Before else NotBefore
  }

  /** Should a sort before b? */
  function SortRoutes(a: HttpRule, b: HttpRule): Verdict {
    match a.request.uri
    case None => NotBefore
    case Some(aUri) =>
      if b.request.uri.None? then Before
      else
        var bUri := b.request.uri.value;
        if aUri.Regex? && !bUri.Regex? then Before
        else if !aUri.Regex? && bUri.Regex? then NotBefore
        else if aUri.Regex? && bUri.Regex? then Verdicts(Above(aUri.regex, bUri.regex))
        else if !aUri.Prefix? || !bUri.Prefix? then Panic
        else Verdicts(Above(aUri.prefix, bUri.prefix))
  }

  // ---- it is a strict weak order, and never panics on compiled rules ----

  predicate Sortable(rule: HttpRule) {
    rule.request.uri.Some? ==> !rule.request.uri.value.Exact?
  }

  predicate PrefixOnly(rule: HttpRule) {
    rule.request.uri.Some? ==> rule.request.uri.value.Prefix?
  }

  /** Some comparison of a list's rules panics exactly when the list holds an exact match. */
  lemma PanicsIff(rules: seq<HttpRule>)
    ensures (exists a, b :: a in rules && b in rules && SortRoutes(a, b) == Panic)
      <==> exists a :: a in rules && !Sortable(a)
  {
    if a :| a in rules && !Sortable(a) {
      assert SortRoutes(a, a) == Panic;
    }
  }

  lemma {:induction false} AboveIsAsymmetric(a: string, b: string)
    ensures !(Above(a, b) && Above(b, a))
    ensures !Above(a, b) && !Above(b, a) ==> a == b
  {
    if a != "" && b != "" && a[0] == b[0] {
      AboveIsAsymmetric(a[1..], b[1..]);
      assert a == [a[0]] + a[1..] && b == [b[0]] + b[1..];
    }
  }

  lemma {:induction false} AboveIsTransitive(a: string, b: string, c: string)
    requires Above(a, b) && Above(b, c)
    ensures Above(a, c)
  {
    if c != "" && a[0] == b[0] == c[0] {
      AboveIsTransitive(a[1..], b[1..], c[1..]);
    }
  }

  /** A longer string is above each of its proper prefixes. */
  lemma {:induction false} AboveExtendsPrefix(p: string, q: string)
    requires p <= q && |p| < |q|
    ensures Above(q, p)
  {
    if p != "" {
      assert p[0] == q[0];
      AboveExtendsPrefix(p[1..], q[1..]);
    }
  }

  /** The text two rules of one kind are compared by: kinds first, then the text. */
  function Rank(rule: HttpRule): (int, string)
    requires Sortable(rule)
  {
    match rule.request.uri
    case None => (0, "")
    case Some(Prefix(p)) => (1, p)
    case Some(Regex(x)) => (2, x)
  }

  predicate RanksAbove(a: (int, string), b: (int, string)) {
    a.0 > b.0 || (a.0 == b.0 && Above(a.1, b.1))
  }

  lemma SortsByRank(a: HttpRule, b: HttpRule)
    requires Sortable(a) && Sortable(b)
    ensures SortRoutes(a, b) == Verdicts(RanksAbove(Rank(a), Rank(b)))
  {
    AboveIsAsymmetric("", "");
  }

  predicate Tied(a: HttpRule, b: HttpRule) {
    SortRoutes(a, b) == NotBefore && SortRoutes(b, a) == NotBefore
  }

  lemma StrictWeakOrder(a: HttpRule, b: HttpRule, c: HttpRule)
    requires Sortable(a) && Sortable(b) && Sortable(c)
    ensures SortRoutes(a, a) == NotBefore
    ensures SortRoutes(a, b) == Before ==> SortRoutes(b, a) == NotBefore
    ensures SortRoutes(a, b) == Before && SortRoutes(b, c) == Before ==> SortRoutes(a, c) == Before
    ensures Tied(a, b) && Tied(b, c) ==> Tied(a, c)
    ensures Tied(a, b) <==> a.request.uri == b.request.uri
  {
    SortsByRank(a, a);
    SortsByRank(a, b);
    SortsByRank(b, a);
    SortsByRank(b, c);
    SortsByRank(a, c);
    var x, y, z := Rank(a).1, Rank(b).1, Rank(c).1;
    AboveIsAsymmetric(x, x);
    AboveIsAsymmetric(x, y);
    if Above(x, y) && Above(y, z) {
      AboveIsTransitive(x, y, z);
    }
    TiedMeansSameUri(a, b);
    TiedMeansSameUri(b, c);
    TiedMeansSameUri(a, c);
  }

  lemma TiedMeansSameUri(a: HttpRule, b: HttpRule)
    requires Sortable(a) && Sortable(b)
    ensures Tied(a, b) <==> a.request.uri == b.request.uri
  {
    SortsByRank(a, b);
    SortsByRank(b, a);
    AboveIsAsymmetric(Rank(a).1, Rank(b).1);
  }

  // ---- sorting ----

  ghost predicate InOrder(a: HttpRule, b: HttpRule) {
    SortRoutes(b, a) != Before
  }

  ghost predicate Sorted(rules: seq<HttpRule>) {
    forall i, j :: 0 <= i < j < |rules| ==> InOrder(rules[i], rules[j])
  }

  ghost predicate SortedFrom(sorted: seq<HttpRule>, rules: seq<HttpRule>) {
    multiset(sorted) == multiset(rules) && Sorted(sorted)
  }

  /** The library sort, here by insertion; callers use only that the result is a sorted permutation. */
  method SortSlice(rules: seq<HttpRule>) returns (sorted: seq<HttpRule>)
    requires forall r :: r in rules ==> Sortable(r)
    ensures SortedFrom(sorted, rules)
  {
    sorted := [];
    for i := 0 to |rules|
      invariant SortedFrom(sorted, rules[..i])
    {
      assert forall x :: x in sorted ==> x in multiset(rules[..i]);
      sorted := Insert(sorted, rules[i]);
      assert rules[..i + 1] == rules[..i] + [rules[i]];
    }
    assert rules[..|rules|] == rules;
  }

  method Insert(rules: seq<HttpRule>, rule: HttpRule) returns (r: seq<HttpRule>)
    requires Sorted(rules) && Sortable(rule) && forall x :: x in rules ==> Sortable(x)
    ensures SortedFrom(r, rules + [rule])
  {
    var k := 0;
    while k < |rules| && SortRoutes(rule, rules[k]) != Before
      invariant 0 <= k <= |rules|
      invariant forall j :: 0 <= j < k ==> InOrder(rules[j], rule)
    {
      k := k + 1;
    }
    r := rules[..k] + [rule] + rules[k..];
    RestStaysBelow(rules, rule, k);
    InsertedIsSorted(rules, rule, k, r);
    InsertedIsPermutation(rules, rule, k, r);
  }

  lemma RestStaysBelow(rules: seq<HttpRule>, rule: HttpRule, k: nat)
    requires Sorted(rules) && Sortable(rule) && forall x :: x in rules ==> Sortable(x)
    requires k < |rules| ==> SortRoutes(rule, rules[k]) == Before
    ensures forall j :: k <= j < |rules| ==> InOrder(rule, rules[j])
  {
    forall j | k <= j < |rules| ensures InOrder(rule, rules[j]) {
      assert k < j ==> InOrder(rules[k], rules[j]);
      StaysBelow(rule, rules[k], rules[j]);
    }
  }

  lemma InsertedIsPermutation(rules: seq<HttpRule>, rule: HttpRule, k: nat, r: seq<HttpRule>)
    requires k <= |rules| && r == rules[..k] + [rule] + rules[k..]
    ensures multiset(r) == multiset(rules + [rule])
  {
    assert rules == rules[..k] + rules[k..];
  }

  lemma StaysBelow(a: HttpRule, b: HttpRule, c: HttpRule)
    requires Sortable(a) && Sortable(b) && Sortable(c) && SortRoutes(a, b) == Before && (b == c || InOrder(b, c))
    ensures InOrder(a, c)
  {
    StrictWeakOrder(a, b, c);
    StrictWeakOrder(c, a, b);
  }

  lemma InsertedIsSorted(rules: seq<HttpRule>, rule: HttpRule, k: nat, r: seq<HttpRule>)
    requires Sorted(rules) && k <= |rules| && r == rules[..k] + [rule] + rules[k..]
    requires forall j :: 0 <= j < k ==> InOrder(rules[j], rule)
    requires forall j :: k <= j < |rules| ==> InOrder(rule, rules[j])
    ensures Sorted(r)
  {
    forall i, j | 0 <= i < j < |r| ensures InOrder(r[i], r[j]) {
      assert i != k ==> r[i] == rules[if i < k then i else i - 1];
      assert j != k ==> r[j] == rules[if j < k then j else j - 1];
    }
  }

  // ---- first match wins ----

  datatype Request = Request(path: string, verb: string, gateway: string, headers: map<string, string>)

  /** What the header and query conditions demand; any reading of them will do. */
  type Conditions = (seq<Condition>, Request) -> bool

  /** An anchored alternation of plain words accepts exactly those words. */
  predicate AcceptsVerb(regex: string, verb: string) {
    && |regex| >= 4 && regex[..2] == "^(" && regex[|regex| - 2..] == ")$"
    && verb in Split(regex[2..|regex| - 2], '|')
  }

  function PathPrefix(rule: HttpRule): string
    requires PrefixOnly(rule)
  {
    if rule.request.uri.None? then "/" else rule.request.uri.value.prefix
  }

  /** A compiled rule accepts a request; a rule without a uri looks at no path. */
  predicate Accepts(rule: HttpRule, req: Request, holds: Conditions)
    requires PrefixOnly(rule)
  {
    && (rule.request.uri.Some? ==> rule.request.uri.value.prefix <= req.path)
    && AcceptsVerb(rule.request.methodRegex, req.verb)
    && req.gateway in rule.request.gateways
    && holds(rule.request.conditions, req)
  }

  function FirstMatch(rules: seq<HttpRule>, req: Request, holds: Conditions): (first: Option<nat>)
    requires forall r :: r in rules ==> PrefixOnly(r)
    ensures first.Some? ==>
      && first.value < |rules| && Accepts(rules[first.value], req, holds)
      && forall j :: 0 <= j < first.value ==> !Accepts(rules[j], req, holds)
    ensures first.None? ==> forall r :: r in rules ==> !Accepts(r, req, holds)
  {
    if rules == [] then None
    else if Accepts(rules[0], req, holds) then Some(0)
    else
      var rest := FirstMatch(rules[1..], req, holds);
      assert rules == [rules[0]] + rules[1..];
      if rest.None? then None else Some(rest.value + 1)
  }

  /** The rule that serves has a longest prefix among all that accept; one without a uri serves only if no other accepts. */
  lemma LongestPrefixWins(rules: seq<HttpRule>, req: Request, holds: Conditions, rule: HttpRule)
    requires Sorted(rules) && forall r :: r in rules ==> PrefixOnly(r)
    requires rule in rules && Accepts(rule, req, holds)
    ensures FirstMatch(rules, req, holds).Some?
    ensures
      var winner := rules[FirstMatch(rules, req, holds).value];
      && (winner.request.uri.None? ==> rule.request.uri.None?)
      && (winner.request.uri.Some? && rule.request.uri.Some? ==> |PathPrefix(rule)| <= |PathPrefix(winner)|)
  {
    var i := FirstMatch(rules, req, holds).value;
    var winner := rules[i];
    var j :| 0 <= j < |rules| && rules[j] == rule;
    assert i < j ==> InOrder(winner, rule);
    if i < j && winner.request.uri.Some? && rule.request.uri.Some? && |PathPrefix(rule)| > |PathPrefix(winner)| {
      AboveExtendsPrefix(PathPrefix(winner), PathPrefix(rule));
    }
  }

  /** The path the backend sees: the matched prefix is replaced by the rewrite. */
  function RewrittenPath(rule: HttpRule, path: string): string
    requires PrefixOnly(rule) && PathPrefix(rule) <= path
  {
    match rule.rewrite
    case None => path
    case Some(to) => to + path[|PathPrefix(rule)|..]
  }
}
