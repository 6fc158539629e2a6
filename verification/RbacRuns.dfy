/** Over whole histories of events: when does the index, and with it every decision, follow the live objects? */
module RbacRuns {
  import opened Base
  import opened PolicyText
  import opened Rbac
  import opened RbacCompiler
  import opened RbacCluster
  import opened RbacIndex
  import opened RbacText

  /** The objects as the API server keeps them: role bindings under namespace and name, not under the two joined. */
  datatype Store = Store(
    namespaces: map<string, Namespace>,
    tokens: map<string, AccessToken>,
    bindings: map<(string, string), RoleBinding>)

  datatype Moment = Moment(store: Store, index: Index, lines: set<Line>, judgedAt: int)

  datatype Timed = Timed(event: Event, now: int)

  function Change(s: Store, e: Event): Store {
    match e
    case PutNamespace(n) => s.(namespaces := s.namespaces[n.name := n])
    case DropNamespace(n) => s.(namespaces := s.namespaces - {n.name})
    case PutToken(t) => s.(tokens := s.tokens[t.name := t])
    case DropToken(t) => s.(tokens := s.tokens - {t.name})
    case PutBinding(b) => s.(bindings := s.bindings[Id(b) := b])
    case DropBinding(b) => s.(bindings := s.bindings - {Id(b)})
    case Regenerate => s
  }

  function LiveObjects(s: Store): Live {
    Live(s.namespaces.Values, s.tokens.Values, s.bindings.Values)
  }

  /**
   The server changes, the handler updates the index and writes the text of all indexed objects, in some order; the
   enforcer decides by what it loads from that text.
   */
  ghost predicate Follow(m: Moment, t: Timed, next: Moment) {
    && next.store == Change(m.store, t.event) && next.index == Apply(m.index, t.event) && next.judgedAt == t.now
    && exists text :: IsPolicyText(LiveOf(next.index), t.now, text) && next.lines == LinesOf(Load(text))
  }

  /** Only objects that exist are deleted. */
  predicate Happens(s: Store, e: Event) {
    match e
    case DropNamespace(n) => n.name in s.namespaces
    case DropToken(t) => t.name in s.tokens
    case DropBinding(b) => Id(b) in s.bindings
    case _ => true
  }

  ghost predicate IsRun(ms: seq<Moment>, ts: seq<Timed>) {
    && |ms| == |ts| + 1
    && ms[0].store == Store(map[], map[], map[]) && ms[0].index == Index(map[], map[], map[])
    && ms[0].lines == {}
    && forall i :: 0 <= i < |ts| ==> StepAt(ms, ts, i)
  }

  ghost predicate StepAt(ms: seq<Moment>, ts: seq<Timed>, i: int)
    requires 0 <= i < |ts| < |ms|
  {
    Happens(ms[i].store, ts[i].event) && Follow(ms[i], ts[i], ms[i + 1])
  }

  type LiveBindings = map<(string, string), RoleBinding>
  type IndexedBindings = map<string, RoleBinding>

  function Id(b: RoleBinding): (string, string) {
    (b.ns, b.name)
  }

  predicate Filed(bindings: LiveBindings) {
    forall k :: k in bindings ==> k == Id(bindings[k])
  }

  /** Namespace, dash and name read the same. */
  predicate Collide(a: RoleBinding, b: RoleBinding) {
    a.ns + "-" + a.name == b.ns + "-" + b.name
  }

  /** No two live role bindings share the joined key. */
  ghost predicate NoCollision(bindings: LiveBindings) {
    forall k, k' :: k in bindings && k' in bindings && Collide(bindings[k], bindings[k']) ==> k == k'
  }

  /** The index holds each live role binding under its joined key, and nothing else. */
  ghost predicate Mirrors(index: IndexedBindings, live: LiveBindings) {
    && (forall k :: k in live ==> JoinedKey(live[k]) in index && index[JoinedKey(live[k])] == live[k])
    && (forall j :: j in index ==> j == JoinedKey(index[j]) && Id(index[j]) in live && live[Id(index[j])] == index[j])
  }

  ghost predicate Follows(m: Moment) {
    && m.index.applications == m.store.namespaces && m.index.accessTokens == m.store.tokens
    && Filed(m.store.bindings) && Mirrors(m.index.roleBindings, m.store.bindings)
  }

  lemma PutMirrors(index: IndexedBindings, live: LiveBindings, b: RoleBinding)
    requires Filed(live) && Mirrors(index, live) && NoCollision(live[Id(b) := b])
    ensures Mirrors(index[JoinedKey(b) := b], live[Id(b) := b])
  {
    var live' := live[Id(b) := b];
    forall k | k in live && k != Id(b) ensures JoinedKey(live[k]) != JoinedKey(b) {
      assert k in live' && live'[k] == live[k] && live'[Id(b)] == b;
    }
  }

  lemma DropMirrors(index: IndexedBindings, live: LiveBindings, b: RoleBinding)
    requires Filed(live) && Mirrors(index, live) && NoCollision(live) && Id(b) in live
    ensures Mirrors(index - {JoinedKey(b)}, live - {Id(b)})
  {
    assert JoinedKey(live[Id(b)]) == JoinedKey(b);
  }

  lemma PutFollows(m: Moment, b: RoleBinding, next: Moment)
    requires Follows(m) && NoCollision(next.store.bindings)
    requires next.store == Change(m.store, PutBinding(b)) && next.index == Apply(m.index, PutBinding(b))
    ensures Follows(next)
  {
    PutMirrors(m.index.roleBindings, m.store.bindings, b);
  }

  lemma DropFollows(m: Moment, b: RoleBinding, next: Moment)
    requires Follows(m) && NoCollision(m.store.bindings) && Id(b) in m.store.bindings
    requires next.store == Change(m.store, DropBinding(b)) && next.index == Apply(m.index, DropBinding(b))
    ensures Follows(next)
  {
    DropMirrors(m.index.roleBindings, m.store.bindings, b);
  }

  lemma OthersFollow(m: Moment, e: Event, next: Moment)
    requires Follows(m) && !e.PutBinding? && !e.DropBinding?
    requires next.store == Change(m.store, e) && next.index == Apply(m.index, e)
    ensures Follows(next)
  {
  }

  lemma FollowsStep(m: Moment, t: Timed, next: Moment)
    requires Follows(m) && NoCollision(m.store.bindings) && NoCollision(next.store.bindings)
    requires Happens(m.store, t.event)
    requires next.store == Change(m.store, t.event) && next.index == Apply(m.index, t.event)
    ensures Follows(next)
  {
    match t.event
    case PutBinding(b) => PutFollows(m, b, next);
    case DropBinding(b) => DropFollows(m, b, next);
    case _ => OthersFollow(m, t.event, next);
  }

  lemma {:induction false} FollowsAlways(ms: seq<Moment>, ts: seq<Timed>, i: nat)
    requires IsRun(ms, ts) && i <= |ts|
    requires forall j :: 0 <= j <= i ==> NoCollision(ms[j].store.bindings)
    ensures Follows(ms[i])
  {
    if i > 0 {
      FollowsAlways(ms, ts, i - 1);
      assert StepAt(ms, ts, i - 1);
      FollowsStep(ms[i - 1], ts[i - 1], ms[i]);
    }
  }

  lemma FollowingMeansSameObjects(m: Moment)
    requires Follows(m)
    ensures LiveOf(m.index) == LiveObjects(m.store)
  {
    forall b | b in m.store.bindings.Values ensures b in m.index.roleBindings.Values {
      var k :| k in m.store.bindings && m.store.bindings[k] == b;
      assert m.index.roleBindings[JoinedKey(b)] == b;
    }
    forall b | b in m.index.roleBindings.Values ensures b in m.store.bindings.Values {
      var j :| j in m.index.roleBindings && m.index.roleBindings[j] == b;
      assert m.store.bindings[Id(b)] == b;
    }
  }

  /** At every moment but the first the lines in force were loaded from a text of the objects indexed then. */
  lemma LinesAreLoaded(ms: seq<Moment>, ts: seq<Timed>, i: nat) returns (text: string)
    requires IsRun(ms, ts) && 0 < i <= |ts|
    ensures IsPolicyText(LiveOf(ms[i].index), ms[i].judgedAt, text) && ms[i].lines == LinesOf(Load(text))
    ensures ms[i].judgedAt == ts[i - 1].now
  {
    assert StepAt(ms, ts, i - 1);
    text :| IsPolicyText(LiveOf(ms[i].index), ts[i - 1].now, text) && ms[i].lines == LinesOf(Load(text));
  }

  ghost predicate NoCollisionUpTo(ms: seq<Moment>, i: nat)
    requires i < |ms|
  {
    forall j :: 0 <= j <= i ==> NoCollision(ms[j].store.bindings)
  }

  /**
   As long as no two live role bindings ever share the joined key: at every moment at which all unexpired free text
   is clean, every decision is the direct reading of the live objects, roles in a namespace called "cluster" being
   the cluster's and expiry being judged at the last event or regeneration.
   */
  lemma DecisionsFollowLiveObjects(ms: seq<Moment>, ts: seq<Timed>, i: nat, sub: string, act: string, scope: string, obj: string)
    requires IsRun(ms, ts) && i <= |ts| && NoCollisionUpTo(ms, i) && IsSafeSubject(sub)
    requires KubernetesNames(LiveObjects(ms[i].store))
    requires RulesClean(LiveObjects(ms[i].store), ms[i].judgedAt) && SubjectsClean(LiveObjects(ms[i].store), ms[i].judgedAt)
    ensures Enforce(ms[i].lines, sub, act, scope, obj)
      <==> Allowed(PromotedLive(LiveObjects(ms[i].store)), ms[i].judgedAt, sub, act, scope, obj)
  {
    var live, now := LiveObjects(ms[i].store), ms[i].judgedAt;
    if i > 0 {
      FollowsAlways(ms, ts, i);
      FollowingMeansSameObjects(ms[i]);
      var text := LinesAreLoaded(ms, ts, i);
      CleanTextDecides(live, now);
      assert Decides(text, live, now, sub, act, scope, obj);
    } else {
      NothingAtTheStart(live, now, sub, act, scope, obj);
      assert forall line :: !Grants({}, line, sub, act, scope, obj);
    }
  }

  lemma NothingAtTheStart(live: Live, now: int, sub: string, act: string, scope: string, obj: string)
    requires live.tokens == {} && live.bindings == {}
    ensures !Allowed(PromotedLive(live), now, sub, act, scope, obj)
  {
    assert PromotedLive(live).bindings == {};
  }

  /** After every event the policies in force are those compiled from the live objects if and only if all free text is clean. */
  lemma PoliciesFollowIff(ms: seq<Moment>, ts: seq<Timed>, i: nat)
    requires IsRun(ms, ts) && 0 < i <= |ts| && NoCollisionUpTo(ms, i)
    requires KubernetesNames(LiveObjects(ms[i].store))
    ensures
      var live, now := LiveObjects(ms[i].store), ms[i].judgedAt;
      ms[i].lines == Compile(live, now) <==> RulesClean(live, now) && SubjectsClean(live, now)
  {
    var live, now := LiveObjects(ms[i].store), ms[i].judgedAt;
    FollowsAlways(ms, ts, i);
    FollowingMeansSameObjects(ms[i]);
    var text := LinesAreLoaded(ms, ts, i);
    TextIsLosslessIff(live, now);
    if ms[i].lines == Compile(live, now) {
      LosslessIsClean(live, now, text);
    }
  }

  /** At every moment a live binding of an unclean subject in an enabled namespace is worth nothing to that subject. */
  lemma UncleanSubjectIsForgotten(ms: seq<Moment>, ts: seq<Timed>, i: nat, b: RoleBinding)
    requires IsRun(ms, ts) && 0 < i <= |ts|
    requires b in LiveObjects(ms[i].store).bindings && !Expired(b.expiredAt, ms[i].judgedAt)
    requires EnabledNamespace(LiveObjects(ms[i].store), b.ns) && !CleanSubject(b)
    ensures var sub := SafeSubject(b.subject, b.subjectType);
      && Allowed(PromotedLive(LiveObjects(ms[i].store)), ms[i].judgedAt, sub, VIEW, b.ns, ALL)
      && forall act, scope, obj :: !Enforce(ms[i].lines, sub, act, scope, obj)
  {
    var text := LinesAreLoaded(ms, ts, i);
    RoleIsOfUse(LiveObjects(ms[i].store), ms[i].judgedAt, b);
    forall act, scope, obj ensures !Enforce(ms[i].lines, SafeSubject(b.subject, b.subjectType), act, scope, obj) {
      UncleanSubjectIsRefused(text, SafeSubject(b.subject, b.subjectType), act, scope, obj);
    }
  }

  // ---- a subject with a comma ----

  /** A subject that reads "first, role_clusterOwner" once it is written with its kind before it. */
  predicate NamesOwner(b: RoleBinding, first: string) {
    && SafeSubject(b.subject, b.subjectType) == first + ", " + RoleName(CLUSTER, Owner)
    && CleanField(first) && CleanName(b.name) && CleanName(b.ns) && b.expiredAt.None?
  }

  /** One event: the binding appears. */
  lemma OneBindingRun(b: RoleBinding, now: int) returns (ms: seq<Moment>, ts: seq<Timed>)
    ensures IsRun(ms, ts) && ts == [Timed(PutBinding(b), now)] && NoCollisionUpTo(ms, 1)
    ensures LiveObjects(ms[1].store) == Live({}, {}, {b}) && LiveOf(ms[1].index) == Live({}, {}, {b})
  {
    var start := Moment(Store(map[], map[], map[]), Index(map[], map[], map[]), {}, now);
    var store, index := Change(start.store, PutBinding(b)), Apply(start.index, PutBinding(b));
    OneValue(start.store.bindings, Id(b), b);
    OneValue(start.index.roleBindings, JoinedKey(b), b);
    var text := SomeText(LiveOf(index), now);
    ms := [start, Moment(store, index, LinesOf(Load(text)), now)];
    ts := [Timed(PutBinding(b), now)];
    assert StepAt(ms, ts, 0);
  }

  lemma OneValue<K, V>(m: map<K, V>, k: K, v: V)
    requires m == map[]
    ensures m[k := v].Values == {v}
  {
    assert m[k := v][k] == v && k in m[k := v];
  }

  /** Such a binding, of whatever role, makes the one named first owner of the cluster, whom no object allows anything. */
  lemma CommaMakesOwner(b: RoleBinding, first: string, now: int, scope: string, obj: string)
    returns (ms: seq<Moment>, ts: seq<Timed>)
    requires NamesOwner(b, first)
    ensures IsRun(ms, ts) && |ts| == 1 && NoCollisionUpTo(ms, 1) && LiveObjects(ms[1].store) == Live({}, {}, {b})
    ensures Enforce(ms[1].lines, first, MANAGE, scope, obj)
    ensures !Allowed(PromotedLive(LiveObjects(ms[1].store)), now, first, MANAGE, scope, obj)
  {
    ms, ts := OneBindingRun(b, now);
    var text := LinesAreLoaded(ms, ts, 1);
    var lines, owner := ms[1].lines, RoleName(CLUSTER, Owner);
    NameIsClean(CLUSTER);
    CleanNamesMakeCleanRoles(CLUSTER, Owner);
    CommaCutsSubject(Live({}, {}, {b}), now, text, b, first, owner);
    ClusterLinesAreLoaded(Live({}, {}, {b}), now, text, Permission(owner, MANAGE, ALL, ALL));
    OwnerMayAll(lines, first, owner, scope, obj);
    NotAllowedByComma(b, first, now, scope, obj);
  }

  lemma OwnerMayAll(lines: set<Line>, sub: string, role: string, scope: string, obj: string)
    requires Member(sub, role) in lines && Permission(role, MANAGE, ALL, ALL) in lines
    ensures Enforce(lines, sub, MANAGE, scope, obj)
  {
    assert HasRole(lines, role, role, MAX_HIERARCHY_LEVEL - 1);
    assert HasLink(lines, sub, role);
    ObjMatchMeaning(obj, ALL);
    assert Grants(lines, Permission(role, MANAGE, ALL, ALL), sub, MANAGE, scope, obj);
  }

  lemma NotAllowedByComma(b: RoleBinding, first: string, now: int, scope: string, obj: string)
    requires NamesOwner(b, first)
    ensures !Allowed(PromotedLive(Live({}, {}, {b})), now, first, MANAGE, scope, obj)
  {
    var live := PromotedLive(Live({}, {}, {b}));
    assert |SafeSubject(b.subject, b.subjectType)| != |first|;
    forall p ensures !BindingAllows(live, now, p, first, MANAGE, scope, obj) {
      assert p in live.bindings ==> p == Promoted(b);
    }
  }

  /** There is such a binding: a viewer of one namespace. */
  lemma CommaBinding() returns (b: RoleBinding)
    ensures b.subject == "x, role_clusterOwner" && b.role == InNamespace(Viewer) && NamesOwner(b, "user-x")
  {
    b := ViewerCalled("shop", "b", "x", RoleName(CLUSTER, Owner));
  }

  lemma ViewerCalled(ns: string, name: string, first: string, rest: string) returns (b: RoleBinding)
    requires CleanName(ns) && CleanName(name) && CleanName(first) && rest == RoleName(CLUSTER, Owner)
    ensures b.subject == first + ", " + rest && b.role == InNamespace(Viewer) && NamesOwner(b, "user-" + first)
  {
    b := RoleBinding(ns, name, first + ", " + rest, User, InNamespace(Viewer), None);
    UserIsClean(first);
    assert "user-" + (first + ", " + rest) == ("user-" + first) + ", " + rest;
  }

  lemma UserIsClean(name: string)
    requires CleanName(name)
    ensures CleanField("user-" + name)
  {
    var user := "user-" + name;
    assert forall c :: c in user ==> c in "user-" || c in name;
    NameIsClean(user);
  }

  // ---- the condition is needed ----

  ghost predicate KeyedByJoin(i: Index) {
    forall j :: j in i.roleBindings ==> j == JoinedKey(i.roleBindings[j])
  }

  lemma StaysKeyedByJoin(index: Index, store: Store, e: Event)
    requires KeyedByJoin(index) && Filed(store.bindings)
    ensures KeyedByJoin(Apply(index, e)) && Filed(Change(store, e).bindings)
  {
  }

  lemma {:induction false} AlwaysKeyedByJoin(ms: seq<Moment>, ts: seq<Timed>, i: nat)
    requires IsRun(ms, ts) && i <= |ts|
    ensures KeyedByJoin(ms[i].index) && Filed(ms[i].store.bindings)
  {
    if i > 0 {
      AlwaysKeyedByJoin(ms, ts, i - 1);
      assert StepAt(ms, ts, i - 1);
      StaysKeyedByJoin(ms[i - 1].index, ms[i - 1].store, ts[i - 1].event);
    }
  }

  /** An index keyed by the joined name cannot hold two bindings that share it. */
  lemma CollisionLosesObject(m: Moment)
    requires KeyedByJoin(m.index) && Filed(m.store.bindings) && !NoCollision(m.store.bindings)
    ensures LiveOf(m.index).bindings != LiveObjects(m.store).bindings
  {
    var k, k' :| k in m.store.bindings && k' in m.store.bindings && k != k'
                 && JoinedKey(m.store.bindings[k]) == JoinedKey(m.store.bindings[k']);
    var b, b' := m.store.bindings[k], m.store.bindings[k'];
    assert b in m.store.bindings.Values && b' in m.store.bindings.Values;
  }

  /** The index holds exactly the live objects throughout a history if and only if no collision ever occurs in it. */
  lemma IndexIsExactIff(ms: seq<Moment>, ts: seq<Timed>, i: nat)
    requires IsRun(ms, ts) && i <= |ts|
    ensures (forall j :: 0 <= j <= i ==> LiveOf(ms[j].index) == LiveObjects(ms[j].store)) <==>
            (forall j :: 0 <= j <= i ==> NoCollision(ms[j].store.bindings))
  {
    if forall j :: 0 <= j <= i ==> NoCollision(ms[j].store.bindings) {
      forall j | 0 <= j <= i ensures LiveOf(ms[j].index) == LiveObjects(ms[j].store) {
        FollowsAlways(ms, ts, j);
        FollowingMeansSameObjects(ms[j]);
      }
    } else {
      var j :| 0 <= j <= i && !NoCollision(ms[j].store.bindings);
      AlwaysKeyedByJoin(ms, ts, j);
      CollisionLosesObject(ms[j]);
    }
  }
}
