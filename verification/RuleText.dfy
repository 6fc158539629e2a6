/** What the policy line of one token rule is read as, and exactly when that decides as the rule itself. */
module RuleText {
  import opened Base
  import opened PolicyText
  import opened Rbac
  import opened RbacCompiler
  import opened RbacIndex
  import opened RbacText

  /** What one permission allows its own subject. */
  predicate Allows(line: Line, act: string, scope: string, obj: string)
    requires line.Permission?
  {
    act == line.act && InScope(scope, line.scope) && ObjMatch(obj, line.obj)
  }

  ghost predicate ReadAlike(line: Line, other: Line)
    requires line.Permission? && other.Permission?
  {
    forall act, scope, obj :: Allows(line, act, scope, obj) <==> Allows(other, act, scope, obj)
  }

  ghost predicate SameMatches(pattern: string, other: string) {
    forall obj :: ObjMatch(obj, pattern) <==> ObjMatch(obj, other)
  }

  /** Up to its first comma, without outer space. */
  function FirstPiece(s: string): string {
    Trim(Split(s, ',')[0])
  }

  /** Clean, or clean as far as the pattern matters: up to its first star. */
  predicate CleanPattern(pattern: string) {
    || CleanField(pattern)
    || ('*' in pattern && ',' !in pattern[..IndexOf(pattern, '*')] && !IsSpace(pattern[0]))
  }

  // ---- reading the line ----

  /** The tail of the line after its clean fields: the namespace, the object, and the comma between them. */
  function Tail(r: Rule): string {
    " " + r.ns + ", " + RuleObject(r)
  }

  function ReadScope(r: Rule): string {
    Trim(Split(Tail(r), ',')[0])
  }

  lemma {:induction false} AtLeastTwoPieces(a: string, b: string)
    ensures |Split(a + "," + b, ',')| >= 2
  {
    if a == "" {
      assert ("," + b)[1..] == b;
    } else if a[0] != ',' {
      AtLeastTwoPieces(a[1..], b);
      assert (a + "," + b)[1..] == a[1..] + "," + b;
    } else {
      assert (a + "," + b)[0] == ',';
    }
  }

  lemma TailHasTwoPieces(r: Rule)
    ensures |Split(Tail(r), ',')| >= 2
  {
    AtLeastTwoPieces(" " + r.ns, " " + RuleObject(r));
    assert Tail(r) == " " + r.ns + "," + (" " + RuleObject(r));
  }

  /** What the loader makes of the rule's line. */
  function ReadRule(token: string, r: Rule): Line {
    TailHasTwoPieces(r);
    Permission(SafeSubject(token, User), r.verb, ReadScope(r), Trim(Split(Tail(r), ',')[1]))
  }

  lemma LoadedRule(token: string, r: Rule)
    requires CleanName(token) && CleanField(r.verb)
    ensures exists f :: LoadLine(Write(FieldsOf(PolicyFromRule(token, r)))) == [f] && LineOf(f) == Some(ReadRule(token, r))
  {
    var sub := SafeSubject(token, User);
    NameIsClean(sub);
    TailHasTwoPieces(r);
    LineIs(sub, r.verb, r.ns, RuleObject(r));
    var pieces := Split(Tail(r), ',');
    var f := ["p"] + ([sub] + ([r.verb] + TrimAll(pieces)));
    LoadedPieces(sub, r.verb, Tail(r), Write(FieldsOf(PolicyFromRule(token, r))), f);
    LineOfPieces(sub, r.verb, pieces, f);
  }

  lemma LineOfPieces(sub: string, verb: string, pieces: seq<string>, f: Fields)
    requires |pieces| >= 2 && f == ["p"] + ([sub] + ([verb] + TrimAll(pieces)))
    ensures LineOf(f) == Some(Permission(sub, verb, Trim(pieces[0]), Trim(pieces[1])))
  {
    TrimAllAt(pieces);
    assert f[1] == sub && f[2] == verb && f[3] == TrimAll(pieces)[0] && f[4] == TrimAll(pieces)[1];
  }

  lemma LoadedPieces(sub: string, verb: string, tail: string, line: string, f: Fields)
    requires CleanField(sub) && CleanField(verb)
    requires line == "p" + [','] + (" " + sub + [','] + (" " + verb + [','] + tail))
    requires f == ["p"] + ([sub] + ([verb] + TrimAll(Split(tail, ','))))
    ensures LoadLine(line) == [f]
  {
    var rest2 := " " + verb + [','] + tail;
    var rest1 := " " + sub + [','] + rest2;
    NameIsClean("p");
    LeadIsTrimmed(sub, " ");
    LeadIsTrimmed(verb, " ");
    SplitFirst("p", ',', rest1);
    SplitFirst(" " + sub, ',', rest2);
    SplitFirst(" " + verb, ',', tail);
    TrimAllFirst("p", Split(rest1, ','));
    TrimAllFirst(" " + sub, Split(rest2, ','));
    TrimAllFirst(" " + verb, Split(tail, ','));
    assert line[0] == 'p' && f[0] == "p";
  }

  lemma LineIs(sub: string, verb: string, ns: string, obj: string)
    ensures Write(["p", sub, verb, ns, obj]) == "p" + [','] + (" " + sub + [','] + (" " + verb + [','] + (" " + ns + ", " + obj)))
  {
    assert ["p", sub, verb, ns, obj][1..] == [sub, verb, ns, obj];
    WriteFour(sub, verb, ns, obj);
  }

  lemma TrimAllAt(parts: seq<string>)
    requires |parts| >= 2
    ensures TrimAll(parts)[0] == Trim(parts[0]) && TrimAll(parts)[1] == Trim(parts[1])
  {
    assert TrimAll(parts)[1] == TrimAll(parts[1..])[0];
  }

  // ---- when it is read alike ----

  lemma CleanStart(f: string)
    requires Trim(f) == f && f != ""
    ensures !IsSpace(f[0])
  {
    TrimRightKeepsFirst(TrimLeft(f));
    TrimLeftShrinks(f);
  }

  lemma {:induction false} TrimLeftShrinks(s: string)
    ensures |TrimLeft(s)| <= |s| && (s != "" && IsSpace(s[0]) ==> |TrimLeft(s)| < |s|)
  {
    if s != "" && IsSpace(s[0]) {
      TrimLeftShrinks(s[1..]);
    }
  }

  lemma {:induction false} TrimRightKeepsStar(x: string, g: string)
    ensures TrimRight(x + "*" + g) == x + "*" + TrimRight(g)
  {
    var s := x + "*" + g;
    if g == "" {
      assert s[|s| - 1] == '*';
    } else {
      assert s[|s| - 1] == g[|g| - 1] && s[..|s| - 1] == x + "*" + g[..|g| - 1];
      if IsSpace(g[|g| - 1]) {
        TrimRightKeepsStar(x, g[..|g| - 1]);
      }
    }
  }

  lemma StarredMatches(x: string, g: string, obj: string)
    requires '*' !in x
    ensures ObjMatch(obj, x + "*" + g) <==> x <= obj
  {
    var s := x + "*" + g;
    assert s[|x|] == '*' && s[..|x|] == x;
    ObjMatchMeaning(obj, s);
    FirstStar(x, g);
  }

  lemma {:induction false} FirstStar(x: string, g: string)
    requires '*' !in x
    ensures IndexOf(x + "*" + g, '*') == |x|
  {
    var s := x + "*" + g;
    if x != "" {
      assert s[0] == x[0] && s[1..] == x[1..] + "*" + g;
      FirstStar(x[1..], g);
    }
  }

  /** The first piece of a pattern that is clean up to its star keeps everything up to the star. */
  lemma CleanPatternIsKept(pattern: string)
    requires CleanPattern(pattern)
    ensures SameMatches(pattern, FirstPiece(" " + pattern))
  {
    if CleanField(pattern) {
      LeadIsTrimmed(pattern, " ");
      SplitLast(" " + pattern, ',');
    } else {
      var i := IndexOf(pattern, '*');
      var x, g := pattern[..i], pattern[i + 1..];
      assert pattern == x + "*" + g;
      assert x != "" ==> pattern[0] == x[0];
      StarredIsKept(x, g);
    }
  }

  lemma StarredIsKept(x: string, g: string)
    requires '*' !in x && ',' !in x && (x != "" ==> !IsSpace(x[0]))
    ensures SameMatches(x + "*" + g, FirstPiece(" " + (x + "*" + g)))
  {
    var h := PieceOfStarred(" " + x, g);
    assert " " + (x + "*" + g) == " " + x + "*" + g;
    assert " " + x + "*" + h == " " + (x + "*" + h);
    TrimsStart(x + "*" + h);
    TrimRightKeepsStar(x, h);
    var kept := TrimRight(h);
    forall obj ensures ObjMatch(obj, x + "*" + g) <==> ObjMatch(obj, x + "*" + kept) {
      StarredMatches(x, g, obj);
      StarredMatches(x, kept, obj);
    }
  }

  lemma TrimsStart(s: string)
    requires s != "" && !IsSpace(s[0])
    ensures Trim(" " + s) == TrimRight(s)
  {
    assert (" " + s)[1..] == s && (" " + s)[0] == ' ';
    assert TrimLeft(s) == s;
    assert TrimLeft(" " + s) == TrimLeft((" " + s)[1..]);
  }

  lemma PieceOfStarred(x: string, g: string) returns (h: string)
    requires ',' !in x
    ensures Split(x + "*" + g, ',')[0] == x + "*" + h
  {
    if ',' in g {
      var k := FirstComma(g);
      h := g[..k];
      assert x + "*" + g == (x + "*" + h) + [','] + g[k + 1..];
      SplitFirst(x + "*" + h, ',', g[k + 1..]);
    } else {
      h := g;
      SplitLast(x + "*" + g, ',');
    }
  }

  lemma FirstComma(s: string) returns (k: nat)
    requires ',' in s
    ensures k < |s| && s[k] == ',' && ',' !in s[..k]
  {
    k := IndexOf(s, ',');
  }

  /** Patterns that match alike agree up to their first star, or are the same. */
  lemma SameMatchesMeans(pattern: string, other: string)
    requires SameMatches(pattern, other) && CleanField(other)
    ensures CleanPattern(pattern)
  {
    ObjMatchReflexive(pattern);
    ObjMatchReflexive(other);
    assert ObjMatch(pattern, other) && ObjMatch(other, pattern);
    if '*' !in pattern {
      ObjMatchMeaning(other, pattern);
    } else {
      var x := pattern[..IndexOf(pattern, '*')];
      ObjMatchMeaning(x, pattern);
      ObjMatchMeaning(x + "x", pattern);
      ObjMatchMeaning(x, other);
      ObjMatchMeaning(x + "x", other);
      assert ObjMatch(x, other) && ObjMatch(x + "x", other);
      assert |x| != |x + "x"|;
      SamePrefix(pattern, other);
    }
  }

  lemma SamePrefix(pattern: string, other: string)
    requires SameMatches(pattern, other) && CleanField(other) && '*' in pattern && '*' in other
    ensures CleanPattern(pattern)
  {
    var x, y := pattern[..IndexOf(pattern, '*')], other[..IndexOf(other, '*')];
    ObjMatchMeaning(x, pattern);
    ObjMatchMeaning(x, other);
    ObjMatchMeaning(y, pattern);
    ObjMatchMeaning(y, other);
    assert ObjMatch(x, other) && ObjMatch(y, pattern);
    assert x <= y && y <= x;
    assert x == y && |x| == |y|;
    CleanStart(other);
    assert pattern[0] == other[0];
  }

  /** The namespace is read as it is if and only if it is clean, and then the object is its own first piece. */
  lemma CleanScopeIsRead(r: Rule)
    requires CleanField(r.ns)
    ensures |Split(Tail(r), ',')| >= 2
    ensures ReadScope(r) == r.ns && Trim(Split(Tail(r), ',')[1]) == FirstPiece(" " + RuleObject(r))
  {
    TailHasTwoPieces(r);
    LeadIsTrimmed(r.ns, " ");
    assert Tail(r) == (" " + r.ns) + [','] + (" " + RuleObject(r));
    SplitFirst(" " + r.ns, ',', " " + RuleObject(r));
  }

  lemma PieceIsClean(s: string, k: nat)
    requires '\n' !in s && k < |Split(s, ',')|
    ensures CleanField(Trim(Split(s, ',')[k]))
  {
    SplitKeepsSubset(s, ',');
    assert Split(s, ',')[k] in Split(s, ',');
    TrimIsIdempotent(Split(s, ',')[k]);
    TrimKeepsSubset(Split(s, ',')[k]);
  }

  /** Scopes that reach alike are the same. */
  lemma ScopesAgree(line: Line, other: Line)
    requires line.Permission? && other.Permission? && line.act == other.act && ReadAlike(line, other)
    ensures line.scope == other.scope && SameMatches(line.obj, other.obj)
  {
    ObjMatchReflexive(line.obj);
    ObjMatchReflexive(other.obj);
    var act, far := line.act, line.scope + other.scope + "x";
    assert |far| > |line.scope| && |far| > |other.scope|;
    assert Allows(line, act, line.scope, line.obj) && Allows(other, act, other.scope, other.obj);
    assert InScope(line.scope, other.scope) && InScope(other.scope, line.scope);
    assert Allows(line, act, far, line.obj) ==> Allows(other, act, far, line.obj);
    assert Allows(other, act, far, other.obj) ==> Allows(line, act, far, other.obj);
    assert line.scope == ALL <==> other.scope == ALL;
    forall obj ensures ObjMatch(obj, line.obj) <==> ObjMatch(obj, other.obj) {
      assert Allows(line, act, line.scope, obj) <==> Allows(other, act, line.scope, obj);
    }
  }

  /**
   The line of a rule whose text stays on one line decides as the rule read directly if and only if the namespace
   is clean and the object is clean up to its first star.
   */
  lemma RuleIsReadAlikeIff(token: string, r: Rule)
    requires CleanName(token) && CleanField(r.verb) && '\n' !in Tail(r)
    ensures ReadAlike(PolicyFromRule(token, r), ReadRule(token, r)) <==> CleanField(r.ns) && CleanPattern(RuleObject(r))
  {
    var line, read := PolicyFromRule(token, r), ReadRule(token, r);
    TailHasTwoPieces(r);
    PieceIsClean(Tail(r), 0);
    PieceIsClean(Tail(r), 1);
    if CleanField(r.ns) && CleanPattern(RuleObject(r)) {
      CleanScopeIsRead(r);
      CleanPatternIsKept(RuleObject(r));
      assert SameMatches(line.obj, read.obj);
    }
    if ReadAlike(line, read) {
      ScopesAgree(line, read);
      SameMatchesMeans(line.obj, read.obj);
    }
  }
}
