/** The client manager: it keeps the index, and regenerates the enforcer's policies after every event. */
module RbacManager {
  import opened Base
  import opened PolicyText
  import opened Rbac
  import opened RbacCompiler
  import opened RbacIndex

  /** The enforcer has loaded a text written from this index, as of that moment. */
  ghost predicate InForce(loaded: seq<Fields>, index: Index, now: int) {
    exists text :: IsPolicyText(LiveOf(index), now, text) && loaded == Load(text)
  }

  class StandardClientManager {
    var applications: map<string, Namespace>
    var accessTokens: map<string, AccessToken>
    var roleBindings: map<string, RoleBinding>
    const policyAdapter: StringPolicyAdapter
    var loaded: seq<Fields>

    constructor ()
      ensures Current() == Index(map[], map[], map[]) && fresh(policyAdapter)
    {
      policyAdapter := new StringPolicyAdapter("");
      applications, accessTokens, roleBindings, loaded := map[], map[], map[], [];
    }

    function Current(): Index
      reads this
    {
      Index(applications, accessTokens, roleBindings)
    }

    method UpdatePolicies(now: int)
      modifies this`loaded, policyAdapter
      ensures Current() == old(Current()) && InForce(loaded, Current(), now)
    {
      var text := BuildText(ClusterRolePolicies(), now);
      policyAdapter.SetPoliciesString(text);
      loaded := policyAdapter.LoadPolicy();
    }

    method BuildText(cluster: seq<Line>, now: int) returns (text: string)
      ensures exists namespaces, tokens, bindings ::
        IsPolicyTextOf(LiveOf(Current()), now, text, cluster, namespaces, tokens, bindings)
    {
      var sb := Unlines(ClusterBlock(cluster));
      var namespaces, order := WriteNamespaces(applications);
      var tokens, order' := WriteTokens(accessTokens, now);
      var bindings, order'' := WriteBindings(roleBindings, now);
      text := sb + namespaces + tokens + bindings;
      assert IsPolicyTextOf(LiveOf(Current()), now, text, cluster, order, order', order'');
    }

    // ---- informer handlers and the timer ----

    method OnNamespace(namespace: Namespace, now: int)
      modifies this`applications, this`loaded, policyAdapter
      ensures Current() == Apply(old(Current()), PutNamespace(namespace)) && InForce(loaded, Current(), now)
    {
      applications := applications[namespace.name := namespace];
      assert Current() == Apply(old(Current()), PutNamespace(namespace));
      UpdatePolicies(now);
    }

    method OnNamespaceDeleted(namespace: Namespace, now: int)
      modifies this`applications, this`loaded, policyAdapter
      ensures Current() == Apply(old(Current()), DropNamespace(namespace)) && InForce(loaded, Current(), now)
    {
      applications := applications - {namespace.name};
      assert Current() == Apply(old(Current()), DropNamespace(namespace));
      UpdatePolicies(now);
    }

    method OnRoleBinding(binding: RoleBinding, now: int)
      modifies this`roleBindings, this`loaded, policyAdapter
      ensures Current() == Apply(old(Current()), PutBinding(binding)) && InForce(loaded, Current(), now)
    {
      roleBindings := roleBindings[JoinedKey(binding) := binding];
      assert Current() == Apply(old(Current()), PutBinding(binding));
      UpdatePolicies(now);
    }

    method OnRoleBindingDeleted(binding: RoleBinding, now: int)
      modifies this`roleBindings, this`loaded, policyAdapter
      ensures Current() == Apply(old(Current()), DropBinding(binding)) && InForce(loaded, Current(), now)
    {
      roleBindings := roleBindings - {JoinedKey(binding)};
      assert Current() == Apply(old(Current()), DropBinding(binding));
      UpdatePolicies(now);
    }

    method OnAccessToken(token: AccessToken, now: int)
      modifies this`accessTokens, this`loaded, policyAdapter
      ensures Current() == Apply(old(Current()), PutToken(token)) && InForce(loaded, Current(), now)
    {
      accessTokens := accessTokens[token.name := token];
      assert Current() == Apply(old(Current()), PutToken(token));
      UpdatePolicies(now);
    }

    method OnAccessTokenDeleted(token: AccessToken, now: int)
      modifies this`accessTokens, this`loaded, policyAdapter
      ensures Current() == Apply(old(Current()), DropToken(token)) && InForce(loaded, Current(), now)
    {
      accessTokens := accessTokens - {token.name};
      assert Current() == Apply(old(Current()), DropToken(token));
      UpdatePolicies(now);
    }

    method RegenerateLoopBody(now: int)
      modifies this`loaded, policyAdapter
      ensures Current() == Apply(old(Current()), Regenerate) && InForce(loaded, Current(), now)
    {
      assert Current() == Apply(Current(), Regenerate);
      UpdatePolicies(now);
    }
  }

  // ---- the three loops of the policy builder, each over a map in any order ----

  method WriteNamespaces(applications: map<string, Namespace>) returns (text: string, ghost order: seq<Namespace>)
    ensures Elements(order) == applications.Values && text == NamespacesText(order)
  {
    text, order := "", [];
    var todo := applications.Keys;
    while todo != {}
      invariant todo <= applications.Keys && text == NamespacesText(order)
      invariant Listed(order, applications, todo)
      decreases |todo|
    {
      var k :| k in todo;
      ListedStep(order, applications, todo, k);
      order := order + [applications[k]];
      todo := todo - {k};
      if !IsEnabled(applications[k]) { continue; }
      text := text + Unlines(NamespaceBlock(applications[k].name));
    }
    AllListed(order, applications);
  }

  method WriteTokens(accessTokens: map<string, AccessToken>, now: int) returns (text: string, ghost order: seq<AccessToken>)
    ensures Elements(order) == accessTokens.Values && text == TokensText(order, now)
  {
    text, order := "", [];
    var todo := accessTokens.Keys;
    while todo != {}
      invariant todo <= accessTokens.Keys && text == TokensText(order, now)
      invariant Listed(order, accessTokens, todo)
      decreases |todo|
    {
      var k :| k in todo;
      ListedStep(order, accessTokens, todo, k);
      order := order + [accessTokens[k]];
      todo := todo - {k};
      if Expired(accessTokens[k].expiredAt, now) { continue; }
      text := text + Unlines(TokenBlock(accessTokens[k]));
    }
    AllListed(order, accessTokens);
  }

  method WriteBindings(roleBindings: map<string, RoleBinding>, now: int) returns (text: string, ghost order: seq<RoleBinding>)
    ensures Elements(order) == roleBindings.Values && text == BindingsText(order, now)
  {
    text, order := "", [];
    var todo := roleBindings.Keys;
    while todo != {}
      invariant todo <= roleBindings.Keys && text == BindingsText(order, now)
      invariant Listed(order, roleBindings, todo)
      decreases |todo|
    {
      var k :| k in todo;
      ListedStep(order, roleBindings, todo, k);
      order := order + [roleBindings[k]];
      todo := todo - {k};
      if Expired(roleBindings[k].expiredAt, now) { continue; }
      text := text + Unlines(BindingBlock(roleBindings[k]));
    }
    AllListed(order, roleBindings);
  }

  /** The values of all keys but those still to do, in the order they were taken. */
  ghost predicate Listed<T>(order: seq<T>, objects: map<string, T>, todo: set<string>) {
    && (forall x :: x in order ==> x in objects.Values)
    && forall k :: k in objects && k !in todo ==> objects[k] in order
  }

  lemma ListedStep<T>(order: seq<T>, objects: map<string, T>, todo: set<string>, k: string)
    requires Listed(order, objects, todo) && k in todo && k in objects
    ensures Listed(order + [objects[k]], objects, todo - {k})
    ensures (order + [objects[k]])[..|order|] == order
  {
  }

  lemma AllListed<T>(order: seq<T>, objects: map<string, T>)
    requires Listed(order, objects, {})
    ensures Elements(order) == objects.Values
  {
    forall x | x in objects.Values ensures x in order {
      var k :| k in objects && objects[k] == x;
    }
  }
}
