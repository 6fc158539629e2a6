/** Deciding requests from policies: wildcard objects, role inheritance, the matcher and the enforcer's short forms. */
module Rbac {
  import opened Base
  import opened PolicyText

  const VIEW := "view"
  const EDIT := "edit"
  const MANAGE := "manage"
  const ALL := "*"

  /** One line of policy: a permission, or membership of a role. */
  datatype Line =
    | Permission(sub: string, act: string, scope: string, obj: string)
    | Member(sub: string, role: string)

  function FieldsOf(line: Line): Fields {
    match line
    case Permission(sub, act, scope, obj) => ["p", sub, act, scope, obj]
    case Member(sub, role) => ["g", sub, role]
  }

  /**
   Loaded fields read as a line: of too many fields the first ones count, a membership being cut to its two names
   and a permission matched by its first four tokens. A line of too few fields grants nothing.
   */
  function LineOf(f: Fields): Option<Line> {
    if |f| >= 5 && f[0] == "p" then Some(Permission(f[1], f[2], f[3], f[4]))
    else if |f| >= 3 && f[0] == "g" then Some(Member(f[1], f[2]))
    else None
  }

  function LinesOf(loaded: seq<Fields>): set<Line> {
    set f | f in loaded && LineOf(f).Some? :: LineOf(f).value
  }

  lemma LineOfFields(line: Line)
    ensures LineOf(FieldsOf(line)) == Some(line)
  {
  }

  // ---- objects ----

  function IndexOf(s: string, c: char): (i: int)
    ensures i == -1 <==> c !in s
    ensures i != -1 ==> 0 <= i < |s| && s[i] == c && c !in s[..i]
  {
    if s == "" then -1
    else if s[0] == c then 0
    else
      var j := IndexOf(s[1..], c);
      assert j >= 0 ==> s[..j + 1] == [s[0]] + s[1..][..j];
      if j == -1 then -1 else j + 1
  }

  predicate ObjMatch(key1: string, key2: string) {
    var i := IndexOf(key2, '*');
    if i == -1 then key1 == key2
    else if |key1| > i then key1[..i] == key2[..i]
    else key1 == key2[..i]
  }

  /** A pattern matches itself literally, or everything that begins like the part before its first star. */
  lemma ObjMatchMeaning(key: string, pattern: string)
    ensures ObjMatch(key, pattern) <==>
      if '*' in pattern then pattern[..IndexOf(pattern, '*')] <= key else key == pattern
  {
  }

  lemma ObjMatchReflexive(key: string)
    ensures ObjMatch(key, key)
  {
  }

  lemma ObjMatchTransitive(a: string, b: string, c: string)
    requires ObjMatch(a, b) && ObjMatch(b, c)
    ensures ObjMatch(a, c)
  {
    ObjMatchMeaning(a, b);
    ObjMatchMeaning(b, c);
    ObjMatchMeaning(a, c);
    if '*' in c {
      var i := IndexOf(c, '*');
      if '*' in b {
        var j := IndexOf(b, '*');
        assert b[..i] == c[..i] && i <= j;
        assert b[..j][..i] == b[..i];
      }
    }
  }

  // ---- roles ----

  const MAX_HIERARCHY_LEVEL := 10

  /** Does the subject have the role, through at most so many memberships? */
  ghost predicate HasRole(lines: set<Line>, sub: string, role: string, level: nat)
    decreases level
  {
    sub == role || (level > 0 && exists via :: Member(sub, via) in lines && HasRole(lines, via, role, level - 1))
  }

  ghost predicate HasLink(lines: set<Line>, sub: string, role: string) {
    HasRole(lines, sub, role, MAX_HIERARCHY_LEVEL)
  }

  /** Each subject of the list is a member of the next one, and nobody of anything else. */
  ghost predicate IsChain(lines: set<Line>, subs: seq<string>) {
    && (forall i, j :: 0 <= i < j < |subs| ==> subs[i] != subs[j])
    && forall sub, via :: Member(sub, via) in lines <==> exists i :: 0 < i < |subs| && subs[i - 1] == sub && subs[i] == via
  }

  lemma {:induction false} ChainWithin(lines: set<Line>, subs: seq<string>, i: nat, j: nat, level: nat)
    requires IsChain(lines, subs) && i <= j < |subs|
    ensures HasRole(lines, subs[i], subs[j], level) <==> j - i <= level
    decreases level
  {
    if i < j && level > 0 {
      ChainWithin(lines, subs, i + 1, j, level - 1);
      assert Member(subs[i], subs[i + 1]) in lines;
      forall via | Member(subs[i], via) in lines ensures via == subs[i + 1] {
        var k :| 0 < k < |subs| && subs[k - 1] == subs[i] && subs[k] == via;
        assert k - 1 == i;
      }
    }
  }

  /** Along a chain of memberships a subject has just the roles at most ten steps away. */
  lemma TenStepsAreFollowed(lines: set<Line>, subs: seq<string>, i: nat, j: nat)
    requires IsChain(lines, subs) && i <= j < |subs|
    ensures HasLink(lines, subs[i], subs[j]) <==> j - i <= 10
  {
    ChainWithin(lines, subs, i, j, MAX_HIERARCHY_LEVEL);
  }

  // ---- the enforcer ----

  predicate InScope(scope: string, pattern: string) {
    scope == pattern || pattern == ALL
  }

  ghost predicate Grants(lines: set<Line>, line: Line, sub: string, act: string, scope: string, obj: string) {
    && line in lines && line.Permission? && HasLink(lines, sub, line.sub)
    && InScope(scope, line.scope) && ObjMatch(obj, line.obj) && act == line.act
  }

  ghost predicate Enforce(lines: set<Line>, sub: string, act: string, scope: string, obj: string) {
    exists line :: Grants(lines, line, sub, act, scope, obj)
  }
}
