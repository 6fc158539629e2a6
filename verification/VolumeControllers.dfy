/**
 The passes as Kalm's code runs them: call by call against the API server, object by object in loops. Any call may
 fail; every method says what it leaves behind when one does.
 */
module VolumeControllers {
  import opened Base
  import opened Volumes
  import VolumePasses

  datatype Reply = Answered | NotFoundError | OtherError

  /** The stored objects, changed only through calls. */
  class ApiServer {
    var pvs: map<string, Volume>
    var pvcs: map<ClaimKey, Claim>
    var pods: seq<Pod>
    var namespaces: set<string>
    /** How the calls to come are replied to; after these all are answered. */
    var replies: seq<Reply>
    /** Some call was not answered. */
    var faulty: bool

    constructor (c: Cluster, replies: seq<Reply>)
      ensures State() == c && this.replies == replies && !faulty
    {
      pvs, pvcs, pods, namespaces := c.pvs, c.pvcs, c.pods, c.namespaces;
      this.replies, faulty := replies, false;
    }

    method Call() returns (reply: Reply)
      modifies `replies, `faulty
      ensures reply == if old(replies) == [] then Answered else old(replies)[0]
      ensures replies == if old(replies) == [] then [] else old(replies)[1..]
      ensures faulty <==> old(faulty) || reply != Answered
    {
      reply := Answered;
      if replies != [] {
        reply, replies := replies[0], replies[1..];
      }
      faulty := faulty || reply != Answered;
    }

    method Answers() returns (ok: bool)
      modifies `replies, `faulty
      ensures faulty <==> old(faulty) || !ok
    {
      var reply := Call();
      ok := reply == Answered;
    }

    function State(): Cluster
      reads this
    {
      Cluster(pvs, pvcs, pods, namespaces)
    }

    /** Every volume once, in an order the server chooses. */
    method ListVolumes() returns (items: seq<(string, Volume)>)
      ensures Lists(pvs, items)
    {
      items := [];
      var todo := pvs.Keys;
      while todo != {}
        invariant todo <= pvs.Keys && Lists(pvs - todo, items)
        decreases |todo|
      {
        var n :| n in todo;
        ListsOneMore(pvs, todo, items, n);
        items := items + [(n, pvs[n])];
        todo := todo - {n};
      }
      assert pvs - todo == pvs;
    }

    /** The managed ones only, as a list call with a label selector returns them. */
    method ListManagedVolumes() returns (items: seq<(string, Volume)>)
      ensures ListsManaged(State(), items)
    {
      items := [];
      var todo := pvs.Keys;
      while todo != {}
        invariant todo <= pvs.Keys && Lists(ManagedVolumes(pvs) - todo, items)
        decreases |todo|
      {
        var n :| n in todo;
        if IsManaged(pvs[n].labels) {
          ListsOneMore(ManagedVolumes(pvs), todo, items, n);
          items := items + [(n, pvs[n])];
        } else {
          assert ManagedVolumes(pvs) - (todo - {n}) == ManagedVolumes(pvs) - todo;
        }
        todo := todo - {n};
      }
      assert ManagedVolumes(pvs) - todo == ManagedVolumes(pvs);
    }
  }

  lemma ListsOneMore(m: map<string, Volume>, todo: set<string>, items: seq<(string, Volume)>, n: string)
    requires n in m && n in todo && Lists(m - todo, items)
    ensures Lists(m - (todo - {n}), items + [(n, m[n])])
  {
    var more := items + [(n, m[n])];
    assert forall i :: 0 <= i < |items| ==> more[i] == items[i] && items[i].0 in m - todo;
    assert more[|items|] == (n, m[n]);
    forall k | k in m - (todo - {n}) ensures (k, m[k]) in more {
      assert k != n ==> k in m - todo && (k, m[k]) in items;
    }
  }

  /** The items are entries of the map, no two under one name. */
  ghost predicate CopiesOf(items: seq<(string, Volume)>, m: map<string, Volume>) {
    && (forall i :: 0 <= i < |items| ==> items[i].0 in m && items[i].1 == m[items[i].0])
    && (forall i, j :: 0 <= i < j < |items| ==> items[i].0 != items[j].0)
  }

  /** The items are exactly the entries of the map, each once. */
  ghost predicate Lists(m: map<string, Volume>, items: seq<(string, Volume)>) {
    && CopiesOf(items, m)
    && (forall n :: n in m ==> (n, m[n]) in items)
  }

  ghost predicate ListsManaged(c: Cluster, items: seq<(string, Volume)>) {
    Lists(ManagedVolumes(c.pvs), items)
  }

  function ManagedVolumes(pvs: map<string, Volume>): map<string, Volume> {
    map n | n in pvs && IsManaged(pvs[n].labels) :: pvs[n]
  }

  function Names(items: seq<(string, Volume)>): set<string> {
    set x | x in items :: x.0
  }

  lemma NamesOfAll(items: seq<(string, Volume)>, k: nat)
    requires k == |items|
    ensures Names(items[..k]) == Names(items)
  {
    assert items[..k] == items;
  }

  lemma ListedNames(m: map<string, Volume>, items: seq<(string, Volume)>)
    requires Lists(m, items)
    ensures Names(items) == m.Keys
  {
    forall n | n in m ensures n in Names(items) { assert (n, m[n]) in items; }
  }

  lemma NamesGrow(items: seq<(string, Volume)>, k: nat, m: map<string, Volume>)
    requires k < |items| && CopiesOf(items, m)
    ensures Names(items[..k + 1]) == Names(items[..k]) + {items[k].0}
    ensures items[k].0 !in Names(items[..k])
  {
    assert items[..k + 1] == items[..k] + [items[k]];
  }

  // ---- PV controller ----

  /** A pass that returns an error has stopped where its stop says. */
  method ReconcileForClaimChange(api: ApiServer) returns (ok: bool, ghost stop: Stop)
    modifies api
    ensures old(api.faulty) || !ok ==> api.faulty
    ensures ok ==> api.State() == ClaimChangePass(old(api.State()))
    ensures !ok ==> IsStop(old(api.State()), stop) && api.State() == StoppedPass(old(api.State()), stop)
  {
    ghost var c0 := api.State();
    stop := Deleting({});
    assert DeleteDoomed(c0, {}).pvs == c0.pvs;
    ok := api.Answers();
    if !ok { return; }
    var items := api.ListManagedVolumes();
    ghost var k;
    ok, k := DeleteMarkedVolumes(api, items);
    stop := Deleting(Names(items[..k]));
    if !ok { return; }
    NamesOfAll(items, k);
    ListedNames(ManagedVolumes(c0.pvs), items);
    DoomedAreManaged(c0);
    ok, stop := ReconcileOrphans(api, items, c0);
  }

  lemma DoomedAreManaged(c: Cluster)
    ensures DeleteDoomed(c, ManagedVolumes(c.pvs).Keys) == DeleteDoomed(c, c.pvs.Keys)
  {
    assert DeleteDoomed(c, ManagedVolumes(c.pvs).Keys).pvs == DeleteDoomed(c, c.pvs.Keys).pvs;
  }

  /** First half of the pass: the volumes whose marked claim is gone are deleted, one call at a time. */
  method DeleteMarkedVolumes(api: ApiServer, items: seq<(string, Volume)>) returns (ok: bool, ghost done: nat)
    requires CopiesOf(items, ManagedVolumes(api.pvs))
    modifies api`pvs, api`replies, api`faulty
    ensures old(api.faulty) || !ok ==> api.faulty
    ensures done <= |items| && (ok ==> done == |items|)
    ensures api.State() == DeleteDoomed(old(api.State()), Names(items[..done]))
  {
    ghost var c0 := api.State();
    done := 0;
    for k := 0 to |items|
      invariant done == k && api.State() == DeleteDoomed(c0, Names(items[..k]))
      invariant old(api.faulty) ==> api.faulty
    {
      NamesGrow(items, k, ManagedVolumes(c0.pvs));
      var (name, pv) := items[k];
      assert name in c0.pvs && c0.pvs[name] == pv;
      if CleanIfPVCGone in pv.labels && pv.claimRef.Some? {
        var key := pv.claimRef.value;
        if pv.labels[CleanIfPVCGone] == CleanMark(key) {
          ok := api.Answers();
          if !ok { return; }
          if key !in api.pvcs {
            ok := api.Answers();
            if !ok { return; }
            api.pvs := api.pvs - {name};
          }
        }
      }
      done := k + 1;
    }
    ok := true;
  }

  /** Second half: volumes nobody can reach any more get a claim of their own in the system namespace. */
  method ReconcileOrphans(api: ApiServer, items: seq<(string, Volume)>, ghost c0: Cluster) returns (ok: bool, ghost stop: Stop)
    requires ListsManaged(c0, items)
    requires api.State() == DeleteDoomed(c0, c0.pvs.Keys)
    modifies api`pvs, api`pvcs, api`replies, api`faulty
    ensures old(api.faulty) || !ok ==> api.faulty
    ensures ok ==> api.State() == ClaimChangePass(c0)
    ensures !ok ==> IsStop(c0, stop) && api.State() == StoppedPass(c0, stop)
  {
    AdoptNone(api.State());
    stop := Adopting({}, None);
    var gone;
    ok, gone := VanishedNamespaces(api, items);
    if !ok { return; }
    var orphans := FindOrphans(items, gone, c0);
    ok, stop := AdoptAll(api, orphans, c0);
  }

  /** The claim namespaces that no longer exist: collected once, then looked up one by one. */
  method VanishedNamespaces(api: ApiServer, items: seq<(string, Volume)>) returns (ok: bool, gone: set<string>)
    modifies api`replies, api`faulty
    ensures old(api.faulty) || !ok ==> api.faulty
    ensures ok ==> forall x :: x in items && x.1.claimRef.Some? ==>
      (x.1.claimRef.value.ns in gone <==> x.1.claimRef.value.ns !in api.namespaces)
  {
    var claimed: set<string> := {};
    for k := 0 to |items|
      invariant forall i :: 0 <= i < k && items[i].1.claimRef.Some? ==> items[i].1.claimRef.value.ns in claimed
    {
      if items[k].1.claimRef.None? { continue; }
      claimed := claimed + {items[k].1.claimRef.value.ns};
    }
    gone := {};
    var todo := claimed;
    while todo != {}
      invariant todo <= claimed
      invariant gone == set ns | ns in claimed - todo && ns !in api.namespaces
      invariant old(api.faulty) ==> api.faulty
      decreases |todo|
    {
      var ns :| ns in todo;
      ok := api.Answers();
      if !ok { return; }
      if ns !in api.namespaces {
        gone := gone + {ns};
      }
      todo := todo - {ns};
    }
    ok := true;
  }

  method FindOrphans(items: seq<(string, Volume)>, gone: set<string>, ghost c: Cluster) returns (orphans: seq<(string, Volume)>)
    requires ListsManaged(c, items)
    requires forall x :: x in items && x.1.claimRef.Some? ==>
      (x.1.claimRef.value.ns in gone <==> x.1.claimRef.value.ns !in c.namespaces)
    ensures CopiesOf(orphans, c.pvs) && Names(orphans) == Orphans(c)
    ensures forall n :: n in Names(orphans) <==>
      && n in c.pvs && Managed in c.pvs[n].labels && c.pvs[n].labels[Managed] == "true"
      && (c.pvs[n].claimRef.None? || c.pvs[n].claimRef.value.ns !in c.namespaces)
  {
    orphans := [];
    for k := 0 to |items|
      invariant CopiesOf(orphans, c.pvs)
      invariant Names(orphans) == OrphansAmong(c, items[..k])
    {
      OrphansAmongGrow(c, items, k);
      var (name, pv) := items[k];
      assert items[k] in items && name in ManagedVolumes(c.pvs);
      if pv.claimRef.None? || pv.claimRef.value.ns in gone {
        NewCopy(orphans, c.pvs, name);
        orphans := orphans + [(name, pv)];
      }
    }
    OrphansAmongAll(c, items, |items|);
    assert Names(orphans) == Orphans(c);
  }

  function OrphansAmong(c: Cluster, items: seq<(string, Volume)>): set<string> {
    set x | x in items && Orphaned(c, x.1) :: x.0
  }

  lemma OrphansAmongGrow(c: Cluster, items: seq<(string, Volume)>, k: nat)
    requires k < |items| && CopiesOf(items, ManagedVolumes(c.pvs))
    ensures items[k].0 !in OrphansAmong(c, items[..k])
    ensures OrphansAmong(c, items[..k + 1]) ==
      OrphansAmong(c, items[..k]) + if Orphaned(c, items[k].1) then {items[k].0} else {}
  {
    assert items[..k + 1] == items[..k] + [items[k]];
  }

  lemma OrphansAmongAll(c: Cluster, items: seq<(string, Volume)>, k: nat)
    requires ListsManaged(c, items) && k == |items|
    ensures OrphansAmong(c, items[..k]) == Orphans(c)
  {
    assert items[..k] == items;
    forall n | n in Orphans(c) ensures n in OrphansAmong(c, items) {
      assert n in ManagedVolumes(c.pvs) && (n, c.pvs[n]) in items;
    }
  }

  lemma NewCopy(items: seq<(string, Volume)>, m: map<string, Volume>, name: string)
    requires CopiesOf(items, m) && name in m && name !in Names(items)
    ensures CopiesOf(items + [(name, m[name])], m)
    ensures Names(items + [(name, m[name])]) == Names(items) + {name}
  {
    assert forall x :: x in items ==> x.0 in Names(items);
    var more := items + [(name, m[name])];
    assert forall i :: 0 <= i < |items| ==> more[i] == items[i] && items[i] in items;
    assert more[|items|] in more;
  }

  /** The deleted volumes are still among the listed copies; adopting skips them. */
  method AdoptAll(api: ApiServer, orphans: seq<(string, Volume)>, ghost c0: Cluster) returns (ok: bool, ghost stop: Stop)
    requires CopiesOf(orphans, c0.pvs) && Names(orphans) == Orphans(c0)
    requires api.State() == DeleteDoomed(c0, c0.pvs.Keys)
    modifies api`pvs, api`pvcs, api`replies, api`faulty
    ensures old(api.faulty) || !ok ==> api.faulty
    ensures ok ==> api.State() == ClaimChangePass(c0)
    ensures !ok ==> IsStop(c0, stop) && api.State() == StoppedPass(c0, stop)
  {
    AdoptNone(api.State());
    stop := Adopting({}, None);
    for k := 0 to |orphans|
      invariant api.State() == StoppedPass(c0, Adopting(Names(orphans[..k]), None))
      invariant old(api.faulty) ==> api.faulty
    {
      NamesGrow(orphans, k, c0.pvs);
      ghost var half;
      ok, half := AdoptListed(api, orphans[k].0, orphans[k].1, c0, Names(orphans[..k]));
      if !ok {
        NamesAmong(orphans, k);
        stop := Adopting(Names(orphans[..k]), half);
        return;
      }
    }
    NamesOfAll(orphans, |orphans|);
    ok := true;
  }

  lemma NamesAmong(items: seq<(string, Volume)>, k: nat)
    requires k < |items|
    ensures Names(items[..k]) <= Names(items) && items[k].0 in Names(items)
  {
    assert items[k] in items;
  }

  method AdoptListed(api: ApiServer, name: string, pv: Volume, ghost c0: Cluster, ghost done: set<string>)
    returns (ok: bool, ghost half: Option<string>)
    requires name in c0.pvs && c0.pvs[name] == pv && name !in done
    requires api.State() == StoppedPass(c0, Adopting(done, None))
    modifies api`pvs, api`pvcs, api`replies, api`faulty
    ensures old(api.faulty) || !ok ==> api.faulty
    ensures half == None || half == Some(name)
    ensures api.State() == StoppedPass(c0, if ok then Adopting(done + {name}, None) else Adopting(done, half))
  {
    AdoptNext(c0, done, name);
    ok, half := true, None;
    if Adoptable(pv) {
      ghost var dropped;
      ok, dropped := ReconcileOrphan(api, name, pv);
      half := if dropped then Some(name) else None;
    }
  }

  /**
   Body for one adoptable orphan: drop its stale claim reference, then make sure its own claim exists. A failure may
   come between the two.
   */
  method ReconcileOrphan(api: ApiServer, name: string, pv: Volume) returns (ok: bool, ghost half: bool)
    requires name in api.pvs && api.pvs[name] == pv && Adoptable(pv)
    modifies api`pvs, api`pvcs, api`replies, api`faulty
    ensures old(api.faulty) || !ok ==> api.faulty
    ensures api.State() ==
      if ok then AdoptOne(old(api.State()), name, pv)
      else if half then HalfAdopt(old(api.State()), name) else old(api.State())
  {
    var expected := OrphanKey(name);
    half := false;
    if pv.claimRef.Some? && pv.claimRef.value.ns != expected.ns && pv.claimRef.value.name != expected.name {
      ok := api.Answers();
      if !ok { return; }
      api.pvs := api.pvs[name := Cleared(pv)];
      half := true;
    }
    ok := api.Answers();
    if !ok { return; }
    if expected !in api.pvcs {
      ok := api.Answers();
      if !ok { return; }
      api.pvcs := api.pvcs[expected := OrphanClaim(name, pv)];
    }
  }

  lemma AdoptNone(c: Cluster)
    ensures Adopt(c, {}) == c
  {
    assert Adopt(c, {}).pvs == c.pvs;
    assert Adopt(c, {}).pvcs == c.pvcs;
  }

  /** The claims created for a set of volumes and one more are those for the set and the one for the volume. */
  lemma OrphanClaimsGrow(c: Cluster, names: set<string>, name: string)
    ensures OrphanClaims(c, names + {name}) ==
            if name in c.pvs && Adoptable(c.pvs[name]) && OrphanKey(name) !in c.pvcs
            then OrphanClaims(c, names)[OrphanKey(name) := OrphanClaim(name, c.pvs[name])]
            else OrphanClaims(c, names)
  {
    var before := Unclaimed(c, names);
    if name in c.pvs && Adoptable(c.pvs[name]) && OrphanKey(name) !in c.pvcs {
      assert Unclaimed(c, names + {name}) == before + {name};
      ClaimsForOneMore(c.pvs, before, name);
    } else {
      assert Unclaimed(c, names + {name}) == before;
    }
  }

  lemma ClaimsForOneMore(pvs: map<string, Volume>, names: set<string>, name: string)
    requires names <= pvs.Keys && name in pvs
    ensures ClaimsFor(pvs, names + {name}) == ClaimsFor(pvs, names)[OrphanKey(name) := OrphanClaim(name, pvs[name])]
  {
    OrphanKeyInjective();
  }

  lemma AdoptOneMoreVolume(pvs: map<string, Volume>, names: set<string>, name: string)
    requires name in pvs
    ensures AdoptedVolumes(pvs, names)[name := AdoptedVolume(name, pvs[name])] == AdoptedVolumes(pvs, names + {name})
  {
  }

  lemma AdoptOneMoreClaim(c: Cluster, names: set<string>, name: string)
    requires name in c.pvs && name !in names && Adoptable(c.pvs[name])
    ensures c.pvcs + OrphanClaims(c, names + {name}) ==
            if OrphanKey(name) in c.pvcs + OrphanClaims(c, names) then c.pvcs + OrphanClaims(c, names)
            else (c.pvcs + OrphanClaims(c, names))[OrphanKey(name) := OrphanClaim(name, c.pvs[name])]
  {
    OrphanClaimsGrow(c, names, name);
    var claims := OrphanClaims(c, names);
    assert OrphanKey(name) !in claims by { OrphanKeyInjective(); }
    OverlayOne(c.pvcs, claims, OrphanKey(name), OrphanClaim(name, c.pvs[name]));
  }

  lemma OverlayOne<K, V>(a: map<K, V>, b: map<K, V>, k: K, v: V)
    ensures a + b[k := v] == (a + b)[k := v]
  {
  }

  /** Adopting one volume more, after others, is the single step on that volume as first listed. */
  lemma AdoptOneMore(c: Cluster, names: set<string>, name: string)
    requires name in c.pvs && name !in names && Adoptable(c.pvs[name])
    ensures name in Adopt(c, names).pvs && Adopt(c, names).pvs[name] == c.pvs[name]
    ensures AdoptOne(Adopt(c, names), name, c.pvs[name]) == Adopt(c, names + {name})
  {
    AdoptOneMoreVolume(c.pvs, names, name);
    AdoptOneMoreClaim(c, names, name);
  }

  lemma AdoptNext(c0: Cluster, names: set<string>, name: string)
    requires name in c0.pvs && name !in names
    ensures var c, v := DeleteDoomed(c0, c0.pvs.Keys), c0.pvs[name];
      if Adoptable(v) then
        name in Adopt(c, names).pvs && Adopt(c, names).pvs[name] == v &&
        AdoptOne(Adopt(c, names), name, v) == Adopt(c, names + {name})
      else
        Adopt(c, names) == Adopt(c, names + {name})
  {
    // a volume the delete phase removed is never adopted from its stale copy
    VolumePasses.DoomedIsNotAdoptable(c0, c0.pvs[name]);
    if Adoptable(c0.pvs[name]) {
      AdoptOneMore(DeleteDoomed(c0, c0.pvs.Keys), names, name);
    } else {
      AdoptSkips(DeleteDoomed(c0, c0.pvs.Keys), names, name);
    }
  }

  lemma AdoptSkips(c: Cluster, names: set<string>, name: string)
    requires name in c.pvs ==> !Adoptable(c.pvs[name])
    ensures Adopt(c, names + {name}) == Adopt(c, names)
  {
    OrphanClaimsGrow(c, names, name);
    assert AdoptedVolumes(c.pvs, names + {name}) == AdoptedVolumes(c.pvs, names);
  }

  /** Reconciling one volume against the claim it refers to. */
  method ReconcileVolume(api: ApiServer, name: string) returns (ok: bool)
    modifies api`pvs, api`pvcs, api`replies, api`faulty
    ensures old(api.faulty) || !ok ==> api.faulty
    ensures ok ==> api.State() == VolumePass(old(api.State()), name)
    ensures !ok ==> api.State() == old(api.State()) || api.State() == StoppedVolumePass(old(api.State()), name)
  {
    ok := api.Answers();
    if !ok || name !in api.pvs { return; }
    var pv := api.pvs[name];
    if pv.claimRef.None? { return; }
    var key := pv.claimRef.value;
    ok := api.Answers();
    if !ok { return; }
    if key !in api.pvcs {
      if Adoptable(pv) {
        ghost var half;
        ok, half := ReconcileOrphan(api, name, pv);
      }
      return;
    }
    var pvc := api.pvcs[key];
    if Value(pvc.labels, Managed) != "true" { return; }
    var labels := pv.labels;
    labels := labels[Managed := "true"];
    labels := labels[ComponentKey := Value(pvc.labels, ComponentKey)];
    labels := labels[NamespaceKey := Value(pvc.labels, NamespaceKey)];
    labels := labels[PVName := name];
    labels := labels - {PVLocker};
    ok := api.Answers();
    if !ok { return; }
    api.pvs := api.pvs[name := pv.(labels := labels)];
  }

  // ---- component controller ----

  /**
   Does any pod of the claim's namespace mount it? Of the errors of the list call only "not found" is reported;
   after any other the list is empty.
   */
  method ClaimIsInUse(api: ApiServer, key: ClaimKey) returns (ok: bool, inUse: bool, ghost listed: bool)
    modifies api`replies, api`faulty
    ensures old(api.faulty) || !ok || !listed ==> api.faulty
    ensures inUse <==> listed && InUse(api.pods, key)
  {
    var reply := api.Call();
    ok, inUse, listed := reply != NotFoundError, false, reply == Answered;
    if !ok { return; }
    var pods := if reply == Answered then api.pods else [];
    inUse := MountedByAny(pods, key);
  }

  method MountedByAny(pods: seq<Pod>, key: ClaimKey) returns (inUse: bool)
    ensures inUse == InUse(pods, key)
  {
    inUse := false;
    for i := 0 to |pods|
      invariant inUse == InUse(pods[..i], key)
      invariant !inUse
    {
      assert pods[..i + 1] == pods[..i] + [pods[i]];
      var pod := pods[i];
      if pod.ns != key.ns { continue; }
      for j := 0 to |pod.vols|
        invariant !inUse && Some(key.name) !in pod.vols[..j]
      {
        if pod.vols[j].None? { continue; }
        if pod.vols[j].value == key.name {
          assert pod in pods && Mounts(pod, key);
          inUse := true;
          break;
        }
      }
      if inUse { return; }
      assert pod.vols[..|pod.vols|] == pod.vols;
    }
    assert pods[..|pods|] == pods;
  }

  /** What the answers were is part of the result; a failed update is passed over, other failures end it unchanged. */
  method ReconcileVolumeForReuse(api: ApiServer, name: string) returns (how: Reuse, ghost a: Answers)
    modifies api`pvs, api`pvcs, api`replies, api`faulty
    ensures old(api.faulty) ==> api.faulty
    ensures !api.faulty ==> a == ALL_ANSWERED
    ensures how != Failed || !api.faulty ==> (api.State(), how) == FreeForReuse(old(api.State()), name, a)
    ensures how == Failed ==> api.State() == old(api.State())
    ensures a.done
  {
    a := ALL_ANSWERED;
    how := Failed;
    var ok := api.Answers();
    if !ok || name !in api.pvs { return; }
    var pv := api.pvs[name];
    if pv.claimRef.None? { return Proceed, a; }
    var owner := pv.claimRef.value;
    ok := api.Answers();
    if !ok { return; }
    if owner !in api.pvcs {
      ok := api.Answers();
      a := a.(stored := ok);
      if ok { api.pvs := api.pvs[name := Cleared(pv)]; }
    } else if pv.retain {
      var inUse;
      ghost var listed;
      ok, inUse, listed := ClaimIsInUse(api, owner);
      if !ok { return; }
      a := a.(listed := listed);
      if !inUse {
        ok := api.Answers();
        if !ok { return; }
        api.pvcs := api.pvcs - {owner};
        if pv.labels == map[] { return Panicked, a; }
        ok := api.Answers();
        a := a.(stored := ok);
        if ok { api.pvs := api.pvs[name := FreedUnderLock(pv)]; }
      }
    }
    return Proceed, a;
  }

  method PrepareClaim(api: ApiServer, key: ClaimKey, claim: Claim) returns (how: Reuse, ghost a: Answers)
    modifies api`pvs, api`pvcs, api`replies, api`faulty
    ensures old(api.faulty) ==> api.faulty
    ensures !api.faulty ==> a == ALL_ANSWERED && api.State() == ComponentPass(old(api.State()), key, claim, a)
    ensures how == Proceed ==> a.done && key in api.pvcs
    ensures how != Failed ==> api.State() == ComponentPass(old(api.State()), key, claim, a)
    ensures how == Failed ==>
      api.State() == old(api.State()) || api.State() == ComponentPass(old(api.State()), key, claim, a)
  {
    a := ALL_ANSWERED;
    how := Failed;
    var ok := api.Answers();
    if !ok { return; }
    if key in api.pvcs { return Proceed, a; }
    if claim.selects.Some? {
      how, a := ReconcileVolumeForReuse(api, claim.selects.value);
      if how != Proceed { return; }
    }
    ok := api.Answers();
    a := a.(done := ok);
    if !ok { return Failed, a; }
    api.pvcs := api.pvcs[key := claim];
    return Proceed, a;
  }

  // ---- delete handler ----

  datatype Answer = NoContent | NoEditorRole | ClaimNotFound | ClaimInUse | CallError

  method HandleDeleteClaim(api: ApiServer, key: ClaimKey, mayEdit: bool)
    returns (answer: Answer, pick: Option<string>, ghost a: Answers)
    modifies api`pvs, api`pvcs, api`replies, api`faulty
    ensures old(api.faulty) || answer == CallError ==> api.faulty
    ensures !api.faulty ==> a == ALL_ANSWERED && (answer == NoContent <==> mayEdit && Deletable(old(api.State()), key, a))
    ensures answer == NoEditorRole <==> !mayEdit
    ensures answer == ClaimNotFound ==> key !in old(api.pvcs)
    ensures answer == ClaimInUse ==> InUse(api.pods, key)
    ensures answer == NoContent ==> a.stored && a.done && Deletable(old(api.State()), key, a)
    ensures answer == NoContent || (answer == CallError && api.State() != old(api.State())) ==>
      Picks(old(api.State()), key, pick) && api.State() == DeleteClaim(old(api.State()), key, pick, a)
    ensures answer != NoContent && answer != CallError ==> api.State() == old(api.State())
  {
    pick, a := None, ALL_ANSWERED;
    if !mayEdit { return NoEditorRole, pick, a; }
    answer := CallError;
    var ok := api.Answers();
    if !ok { return; }
    if key !in api.pvcs { return ClaimNotFound, pick, a; }
    var inUse;
    ghost var listed;
    ok, inUse, listed := ClaimIsInUse(api, key);
    if !ok { return; }
    a := a.(listed := listed);
    if inUse { return ClaimInUse, pick, a; }

    ok := api.Answers();
    if !ok { return; }
    var items := api.ListVolumes();
    pick := FindVolume(items, key, api.pvs);
    if pick.Some? {
      ok := api.Answers();
      if !ok { return; }
      api.pvs := api.pvs[pick.value := Marked(api.pvs[pick.value], key)];
    }
    ok := api.Answers();
    a := a.(done := ok);
    if !ok { return; }
    api.pvcs := api.pvcs - {key};
    return NoContent, pick, a;
  }

  /** The first listed volume that refers to the claim. */
  method FindVolume(items: seq<(string, Volume)>, key: ClaimKey, ghost pvs: map<string, Volume>) returns (pick: Option<string>)
    requires Lists(pvs, items)
    ensures match pick
      case Some(n) => n in pvs && pvs[n].claimRef == Some(key)
      case None => forall n :: n in pvs ==> pvs[n].claimRef != Some(key)
  {
    for i := 0 to |items|
      invariant forall j :: 0 <= j < i ==> items[j].1.claimRef != Some(key)
    {
      if items[i].1.claimRef.None? { continue; }
      if items[i].1.claimRef.value != key { continue; }
      return Some(items[i].0);
    }
    assert forall n :: n in pvs ==> (n, pvs[n]) in items;
    return None;
  }
}
