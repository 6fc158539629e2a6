/** What a pod asks for and what a node has given away. Quantities are whole numbers of their smallest unit. */
module PodResources {
  import opened Base

  type Quantities = map<string, int>

  datatype Container = Container(requests: Quantities, limits: Quantities)

  datatype Pod = Pod(
    namespace: string, name: string, containers: seq<Container>, initContainers: seq<Container>,
    overhead: Option<Quantities>)

  datatype PodRequests = PodRequests(podName: string, namespace: string, requests: Quantities)

  function Amount(q: Quantities, name: string): int {
    if name in q then q[name] else 0
  }

  function Max(a: int, b: int): int {
    if a < b then b else a
  }

  // ---- the two ways of combining resource lists ----

  function Added(list: Quantities, more: Quantities): Quantities {
    map n | n in list.Keys + more.Keys :: Amount(list, n) + Amount(more, n)
  }

  function Raised(list: Quantities, more: Quantities): Quantities {
    map n | n in list.Keys + more.Keys ::
      if n !in list then more[n] else if n in more && more[n] > list[n] then more[n] else list[n]
  }

  /** Overhead goes only on limits that are there and not zero. */
  function WithOverhead(limits: Quantities, overhead: Quantities): Quantities {
    map n | n in limits :: if n in overhead && limits[n] != 0 then limits[n] + overhead[n] else limits[n]
  }

  function AddAll(lists: seq<Quantities>): Quantities {
    if lists == [] then map[] else Added(AddAll(lists[..|lists| - 1]), lists[|lists| - 1])
  }

  function RaiseAll(list: Quantities, lists: seq<Quantities>): Quantities {
    if lists == [] then list else Raised(RaiseAll(list, lists[..|lists| - 1]), lists[|lists| - 1])
  }

  function Requests(containers: seq<Container>): (r: seq<Quantities>)
    ensures |r| == |containers|
  {
    seq(|containers|, i requires 0 <= i < |containers| => containers[i].requests)
  }

  function Limits(containers: seq<Container>): (r: seq<Quantities>)
    ensures |r| == |containers|
  {
    seq(|containers|, i requires 0 <= i < |containers| => containers[i].limits)
  }

  function RequestsOf(pod: Pod): Quantities {
    var reqs := RaiseAll(AddAll(Requests(pod.containers)), Requests(pod.initContainers));
    if pod.overhead.Some? then Added(reqs, pod.overhead.value) else reqs
  }

  function LimitsOf(pod: Pod): Quantities {
    var limits := RaiseAll(AddAll(Limits(pod.containers)), Limits(pod.initContainers));
    if pod.overhead.Some? then WithOverhead(limits, pod.overhead.value) else limits
  }

  // ---- the code, which updates resource lists in place ----

  class ResourceList {
    var items: Quantities

    constructor ()
      ensures items == map[]
    {
      items := map[];
    }

    method AddResourceList(more: Quantities)
      modifies this
      ensures items == Added(old(items), more)
    {
      var todo := more.Keys;
      ghost var before := items;
      AddedNothing(before, more, todo);
      while todo != {}
        invariant todo <= more.Keys && items == Added(before, more - todo)
        decreases |todo|
      {
        var name :| name in todo;
        AddedStep(before, more, todo, name, items);
        if name !in items {
          items := items[name := more[name]];
        } else {
          items := items[name := items[name] + more[name]];
        }
        todo := todo - {name};
      }
      NothingLeft(more, todo);
    }

    method MaxResourceList(more: Quantities)
      modifies this
      ensures items == Raised(old(items), more)
    {
      var todo := more.Keys;
      ghost var before := items;
      RaisedNothing(before, more, todo);
      while todo != {}
        invariant todo <= more.Keys && items == Raised(before, more - todo)
        decreases |todo|
      {
        var name :| name in todo;
        RaisedStep(before, more, todo, name, items);
        if name !in items {
          items := items[name := more[name]];
        } else if more[name] > items[name] {
          items := items[name := more[name]];
        }
        todo := todo - {name};
      }
      NothingLeft(more, todo);
    }

    method AddOverheadToLimits(overhead: Quantities)
      modifies this
      ensures items == WithOverhead(old(items), overhead)
    {
      var todo := overhead.Keys;
      while todo != {}
        invariant todo <= overhead.Keys && items == WithOverhead(old(items), overhead - todo)
        decreases |todo|
      {
        var name :| name in todo;
        OverheadStep(old(items), overhead, todo, name);
        if name in items && items[name] != 0 {
          items := items[name := items[name] + overhead[name]];
        }
        todo := todo - {name};
      }
      assert overhead - todo == overhead;
    }
  }

  lemma NothingLeft(more: Quantities, todo: set<string>)
    requires todo == {}
    ensures more - todo == more
  {
  }

  lemma AddedNothing(list: Quantities, more: Quantities, todo: set<string>)
    requires more.Keys <= todo
    ensures Added(list, more - todo) == list
  {
  }

  lemma RaisedNothing(list: Quantities, more: Quantities, todo: set<string>)
    requires more.Keys <= todo
    ensures Raised(list, more - todo) == list
  {
  }

  lemma AddedStep(list: Quantities, more: Quantities, todo: set<string>, name: string, items: Quantities)
    requires name in todo && todo <= more.Keys && items == Added(list, more - todo)
    ensures Added(list, more - (todo - {name})) ==
      items[name := if name in items then items[name] + more[name] else more[name]]
  {
    assert (more - (todo - {name})).Keys == (more - todo).Keys + {name};
  }

  lemma RaisedStep(list: Quantities, more: Quantities, todo: set<string>, name: string, items: Quantities)
    requires name in todo && todo <= more.Keys && items == Raised(list, more - todo)
    ensures Raised(list, more - (todo - {name})) ==
      if name in items && more[name] <= items[name] then items else items[name := more[name]]
  {
    assert (more - (todo - {name})).Keys == (more - todo).Keys + {name};
  }

  lemma OverheadStep(limits: Quantities, overhead: Quantities, todo: set<string>, name: string)
    requires name in todo && todo <= overhead.Keys
    ensures name in limits ==> WithOverhead(limits, overhead - todo)[name] == limits[name]
    ensures WithOverhead(limits, overhead - (todo - {name})) ==
      if name in limits && limits[name] != 0
      then WithOverhead(limits, overhead - todo)[name := limits[name] + overhead[name]]
      else WithOverhead(limits, overhead - todo)
  {
  }

  lemma AddAllStep(lists: seq<Quantities>, i: nat)
    requires i < |lists|
    ensures AddAll(lists[..i + 1]) == Added(AddAll(lists[..i]), lists[i])
  {
    assert lists[..i + 1][..i] == lists[..i];
  }

  lemma RaiseAllStep(list: Quantities, lists: seq<Quantities>, i: nat)
    requires i < |lists|
    ensures RaiseAll(list, lists[..i + 1]) == Raised(RaiseAll(list, lists[..i]), lists[i])
  {
    assert lists[..i + 1][..i] == lists[..i];
  }

  method PodRequestsAndLimits(pod: Pod) returns (reqs: ResourceList, limits: ResourceList)
    ensures fresh(reqs) && fresh(limits)
    ensures reqs.items == RequestsOf(pod) && limits.items == LimitsOf(pod)
  {
    reqs := new ResourceList();
    limits := new ResourceList();
    ghost var r, l := Requests(pod.containers), Limits(pod.containers);
    for i := 0 to |pod.containers|
      invariant reqs.items == AddAll(r[..i]) && limits.items == AddAll(l[..i])
    {
      reqs.AddResourceList(pod.containers[i].requests);
      limits.AddResourceList(pod.containers[i].limits);
      AddAllStep(r, i);
      AddAllStep(l, i);
    }
    assert r[..|r|] == r && l[..|l|] == l;
    ghost var ri, li := Requests(pod.initContainers), Limits(pod.initContainers);
    for i := 0 to |pod.initContainers|
      invariant reqs.items == RaiseAll(AddAll(r), ri[..i]) && limits.items == RaiseAll(AddAll(l), li[..i])
    {
      reqs.MaxResourceList(pod.initContainers[i].requests);
      limits.MaxResourceList(pod.initContainers[i].limits);
      RaiseAllStep(AddAll(r), ri, i);
      RaiseAllStep(AddAll(l), li, i);
    }
    assert ri[..|ri|] == ri && li[..|li|] == li;
    if pod.overhead.Some? {
      reqs.AddResourceList(pod.overhead.value);
      limits.AddOverheadToLimits(pod.overhead.value);
    }
  }

  function AllRequests(pods: seq<Pod>): (r: seq<Quantities>)
    ensures |r| == |pods|
  {
    seq(|pods|, i requires 0 <= i < |pods| => RequestsOf(pods[i]))
  }

  function AllLimits(pods: seq<Pod>): (r: seq<Quantities>)
    ensures |r| == |pods|
  {
    seq(|pods|, i requires 0 <= i < |pods| => LimitsOf(pods[i]))
  }

  method GetPodsRequests(pods: seq<Pod>) returns (podsRequests: seq<PodRequests>)
    ensures |podsRequests| == |pods|
    ensures forall i :: 0 <= i < |pods| ==>
      podsRequests[i] == PodRequests(pods[i].name, pods[i].namespace, RequestsOf(pods[i]))
  {
    podsRequests := [];
    for i := 0 to |pods|
      invariant |podsRequests| == i
      invariant forall k :: 0 <= k < i ==>
        podsRequests[k] == PodRequests(pods[k].name, pods[k].namespace, RequestsOf(pods[k]))
    {
      var podReqs, _ := PodRequestsAndLimits(pods[i]);
      podsRequests := podsRequests + [PodRequests(pods[i].name, pods[i].namespace, podReqs.items)];
    }
  }

  method GetPodsTotalRequestsAndLimits(pods: seq<Pod>) returns (reqs: ResourceList, limits: ResourceList)
    ensures fresh(reqs) && fresh(limits)
    ensures reqs.items == AddAll(AllRequests(pods)) && limits.items == AddAll(AllLimits(pods))
  {
    reqs := new ResourceList();
    limits := new ResourceList();
    ghost var r, l := AllRequests(pods), AllLimits(pods);
    for i := 0 to |pods|
      invariant reqs.items == AddAll(r[..i]) && limits.items == AddAll(l[..i])
    {
      var podReqs, podLimits := PodRequestsAndLimits(pods[i]);
      reqs.AddResourceList(podReqs.items);
      limits.AddResourceList(podLimits.items);
      AddAllStep(r, i);
      AddAllStep(l, i);
    }
    assert r[..|r|] == r && l[..|l|] == l;
  }

  // ---- what the numbers mean ----

  function SumAt(lists: seq<Quantities>, name: string): int {
    if lists == [] then 0 else SumAt(lists[..|lists| - 1], name) + Amount(lists[|lists| - 1], name)
  }

  /** The greatest amount any of the lists has, 0 if none has more. */
  function MaxAt(lists: seq<Quantities>, name: string): int {
    if lists == [] then 0 else Max(MaxAt(lists[..|lists| - 1], name), Amount(lists[|lists| - 1], name))
  }

  predicate Mentions(lists: seq<Quantities>, name: string) {
    exists i :: 0 <= i < |lists| && name in lists[i]
  }

  /** Kubernetes admits no negative quantity. */
  ghost predicate NonNegative(q: Quantities) {
    forall n :: n in q ==> q[n] >= 0
  }

  ghost predicate ValidPod(pod: Pod) {
    && (forall c :: c in pod.containers ==> NonNegative(c.requests) && NonNegative(c.limits))
    && (forall c :: c in pod.initContainers ==> NonNegative(c.requests) && NonNegative(c.limits))
    && (pod.overhead.Some? ==> NonNegative(pod.overhead.value))
  }

  lemma MentionsStep(lists: seq<Quantities>, name: string)
    requires lists != []
    ensures Mentions(lists, name) <==> Mentions(lists[..|lists| - 1], name) || name in lists[|lists| - 1]
  {
    var init := lists[..|lists| - 1];
    if i :| 0 <= i < |init| && name in init[i] { assert name in lists[i]; }
    if i :| 0 <= i < |lists| && name in lists[i] { assert i < |init| ==> name in init[i]; }
  }

  lemma {:induction false} AddAllAt(lists: seq<Quantities>, name: string)
    ensures Amount(AddAll(lists), name) == SumAt(lists, name)
    ensures name in AddAll(lists) <==> Mentions(lists, name)
  {
    if lists != [] {
      AddAllAt(lists[..|lists| - 1], name);
      MentionsStep(lists, name);
    }
  }

  lemma {:induction false} RaiseAllAt(list: Quantities, lists: seq<Quantities>, name: string)
    requires Amount(list, name) >= 0 && forall q :: q in lists ==> NonNegative(q)
    ensures Amount(RaiseAll(list, lists), name) == Max(Amount(list, name), MaxAt(lists, name))
    ensures name in RaiseAll(list, lists) <==> name in list || Mentions(lists, name)
  {
    if lists != [] {
      var init, last := lists[..|lists| - 1], lists[|lists| - 1];
      assert last in lists;
      RaiseAllAt(list, init, name);
      MentionsStep(lists, name);
      MaxIsNatural(init, name);
    }
  }

  lemma {:induction false} MaxIsNatural(lists: seq<Quantities>, name: string)
    ensures MaxAt(lists, name) >= 0
  {
    if lists != [] { MaxIsNatural(lists[..|lists| - 1], name); }
  }

  lemma {:induction false} SumIsNatural(lists: seq<Quantities>, name: string)
    requires forall q :: q in lists ==> NonNegative(q)
    ensures SumAt(lists, name) >= 0
  {
    if lists != [] {
      assert lists[|lists| - 1] in lists;
      SumIsNatural(lists[..|lists| - 1], name);
    }
  }

  function OverheadOf(pod: Pod): Quantities {
    if pod.overhead.Some? then pod.overhead.value else map[]
  }

  // ---- the containers' own numbers ----

  function RequestedBy(c: Container, name: string): int {
    if name in c.requests then c.requests[name] else 0
  }

  function LimitOf(c: Container, name: string): int {
    if name in c.limits then c.limits[name] else 0
  }

  /** Container by container. */
  function SumOver(containers: seq<Container>, amount: (Container, string) -> int, name: string): int {
    if containers == [] then 0
    else SumOver(containers[..|containers| - 1], amount, name) + amount(containers[|containers| - 1], name)
  }

  /** The most any container has, 0 if none has more. */
  function MostOver(containers: seq<Container>, amount: (Container, string) -> int, name: string): int {
    if containers == [] then 0
    else
      var most, last := MostOver(containers[..|containers| - 1], amount, name), amount(containers[|containers| - 1], name);
      if most < last then last else most
  }

  lemma LastOver(lists: seq<Quantities>, init: seq<Quantities>, last: Quantities, name: string)
    requires lists != [] && lists[..|lists| - 1] == init && lists[|lists| - 1] == last
    ensures SumAt(lists, name) == SumAt(init, name) + Amount(last, name)
    ensures MaxAt(lists, name) == Max(MaxAt(init, name), Amount(last, name))
    ensures Mentions(lists, name) <==> Mentions(init, name) || name in last
  {
    MentionsStep(lists, name);
  }

  lemma {:induction false} RequestsOver(containers: seq<Container>, name: string)
    ensures SumAt(Requests(containers), name) == SumOver(containers, RequestedBy, name)
    ensures MaxAt(Requests(containers), name) == MostOver(containers, RequestedBy, name)
    ensures Mentions(Requests(containers), name) <==> exists c :: c in containers && name in c.requests
  {
    if containers != [] {
      var init, last := containers[..|containers| - 1], containers[|containers| - 1];
      RequestsOver(init, name);
      assert Requests(containers)[..|containers| - 1] == Requests(init);
      LastOver(Requests(containers), Requests(init), Requests([last])[0], name);
      assert containers == init + [last];
    }
  }

  lemma {:induction false} LimitsOver(containers: seq<Container>, name: string)
    ensures SumAt(Limits(containers), name) == SumOver(containers, LimitOf, name)
    ensures MaxAt(Limits(containers), name) == MostOver(containers, LimitOf, name)
    ensures Mentions(Limits(containers), name) <==> exists c :: c in containers && name in c.limits
  {
    if containers != [] {
      var init, last := containers[..|containers| - 1], containers[|containers| - 1];
      LimitsOver(init, name);
      assert Limits(containers)[..|containers| - 1] == Limits(init);
      LastOver(Limits(containers), Limits(init), Limits([last])[0], name);
      assert containers == init + [last];
    }
  }

  /** What the containers sum up to, or what the most demanding init container has, whichever is more. */
  function Largest(pod: Pod, amount: (Container, string) -> int, name: string): int {
    var sum, most := SumOver(pod.containers, amount, name), MostOver(pod.initContainers, amount, name);
    if sum < most then most else sum
  }

  /** The sum over the containers or the most any init container wants, whichever is more. */
  function Needed(containers: seq<Quantities>, inits: seq<Quantities>, name: string): int {
    Max(SumAt(containers, name), MaxAt(inits, name))
  }

  lemma NeededAt(containers: seq<Quantities>, inits: seq<Quantities>, name: string)
    requires forall q :: q in containers ==> NonNegative(q)
    requires forall q :: q in inits ==> NonNegative(q)
    ensures Amount(RaiseAll(AddAll(containers), inits), name) == Needed(containers, inits, name)
    ensures name in RaiseAll(AddAll(containers), inits) <==> Mentions(containers, name) || Mentions(inits, name)
  {
    AddAllAt(containers, name);
    SumIsNatural(containers, name);
    RaiseAllAt(AddAll(containers), inits, name);
  }

  lemma ListsNonNegative(pod: Pod)
    requires ValidPod(pod)
    ensures forall q :: q in Requests(pod.containers) + Requests(pod.initContainers) ==> NonNegative(q)
    ensures forall q :: q in Limits(pod.containers) + Limits(pod.initContainers) ==> NonNegative(q)
  {
  }

  /** A pod's request is what its containers request plus overhead; it lists exactly the resources something requests. */
  lemma RequestMeaning(pod: Pod, name: string)
    requires ValidPod(pod)
    ensures Amount(RequestsOf(pod), name) == Largest(pod, RequestedBy, name) + Amount(OverheadOf(pod), name)
    ensures name in RequestsOf(pod) <==>
      || (exists c :: c in pod.containers + pod.initContainers && name in c.requests)
      || (pod.overhead.Some? && name in pod.overhead.value)
  {
    ListsNonNegative(pod);
    NeededAt(Requests(pod.containers), Requests(pod.initContainers), name);
    RequestsOver(pod.containers, name);
    RequestsOver(pod.initContainers, name);
  }

  /** A pod's limit is made of its containers' limits, plus overhead only where that is not zero. */
  lemma LimitMeaning(pod: Pod, name: string)
    requires ValidPod(pod)
    ensures var limit := Largest(pod, LimitOf, name);
      Amount(LimitsOf(pod), name) == if limit == 0 then 0 else limit + Amount(OverheadOf(pod), name)
    ensures name in LimitsOf(pod) <==> exists c :: c in pod.containers + pod.initContainers && name in c.limits
  {
    ListsNonNegative(pod);
    NeededAt(Limits(pod.containers), Limits(pod.initContainers), name);
    LimitsOver(pod.containers, name);
    LimitsOver(pod.initContainers, name);
  }

  /** Pods that differ in nothing but limits have the same requests, and the other way round. */
  lemma RequestsIgnoreLimits(a: Pod, b: Pod)
    requires |a.containers| == |b.containers| && |a.initContainers| == |b.initContainers| && a.overhead == b.overhead
    ensures
      (forall i :: 0 <= i < |a.containers| ==> a.containers[i].requests == b.containers[i].requests)
      && (forall i :: 0 <= i < |a.initContainers| ==> a.initContainers[i].requests == b.initContainers[i].requests)
      ==> RequestsOf(a) == RequestsOf(b)
    ensures
      (forall i :: 0 <= i < |a.containers| ==> a.containers[i].limits == b.containers[i].limits)
      && (forall i :: 0 <= i < |a.initContainers| ==> a.initContainers[i].limits == b.initContainers[i].limits)
      ==> LimitsOf(a) == LimitsOf(b)
  {
    if (forall i :: 0 <= i < |a.containers| ==> a.containers[i].requests == b.containers[i].requests)
       && forall i :: 0 <= i < |a.initContainers| ==> a.initContainers[i].requests == b.initContainers[i].requests
    {
      assert Requests(a.containers) == Requests(b.containers) && Requests(a.initContainers) == Requests(b.initContainers);
    }
    if (forall i :: 0 <= i < |a.containers| ==> a.containers[i].limits == b.containers[i].limits)
       && forall i :: 0 <= i < |a.initContainers| ==> a.initContainers[i].limits == b.initContainers[i].limits
    {
      assert Limits(a.containers) == Limits(b.containers) && Limits(a.initContainers) == Limits(b.initContainers);
    }
  }

  /** The node's total of a resource is the sum of the requests reported pod by pod, and likewise for limits. */
  lemma {:induction false} TotalsAreSums(pods: seq<Pod>, podsRequests: seq<PodRequests>, name: string)
    requires |podsRequests| == |pods|
    requires forall i :: 0 <= i < |pods| ==>
      podsRequests[i] == PodRequests(pods[i].name, pods[i].namespace, RequestsOf(pods[i]))
    ensures Amount(AddAll(AllRequests(pods)), name) == SumReported(podsRequests, name)
    ensures Amount(AddAll(AllLimits(pods)), name) == SumLimits(pods, name)
    ensures name in AddAll(AllRequests(pods)) <==> exists i :: 0 <= i < |pods| && name in podsRequests[i].requests
  {
    AddAllAt(AllRequests(pods), name);
    SumOfReported(podsRequests, AllRequests(pods), name);
    AddAllAt(AllLimits(pods), name);
    LimitsSum(pods, name);
    assert forall i :: 0 <= i < |pods| ==> AllRequests(pods)[i] == podsRequests[i].requests;
  }

  function SumReported(podsRequests: seq<PodRequests>, name: string): int {
    if podsRequests == [] then 0
    else SumReported(podsRequests[..|podsRequests| - 1], name) + Amount(podsRequests[|podsRequests| - 1].requests, name)
  }

  /** Pod by pod. */
  function SumLimits(pods: seq<Pod>, name: string): int {
    if pods == [] then 0 else SumLimits(pods[..|pods| - 1], name) + Amount(LimitsOf(pods[|pods| - 1]), name)
  }

  lemma {:induction false} LimitsSum(pods: seq<Pod>, name: string)
    ensures SumAt(AllLimits(pods), name) == SumLimits(pods, name)
  {
    if pods != [] {
      LimitsSum(pods[..|pods| - 1], name);
      assert AllLimits(pods)[..|pods| - 1] == AllLimits(pods[..|pods| - 1]);
    }
  }

  lemma {:induction false} SumOfReported(podsRequests: seq<PodRequests>, lists: seq<Quantities>, name: string)
    requires |lists| == |podsRequests| && forall i :: 0 <= i < |lists| ==> lists[i] == podsRequests[i].requests
    ensures SumReported(podsRequests, name) == SumAt(lists, name)
  {
    if lists != [] {
      SumOfReported(podsRequests[..|lists| - 1], lists[..|lists| - 1], name);
    }
  }
}
