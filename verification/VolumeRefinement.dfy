/**
 The atomic passes and the call-by-call machine fit together: every pass, complete or stopped by a failed call, is
 what some undisturbed run does to the cluster, that is, a run made of one party's calls alone, all of one pass.
 */
module VolumeRefinement {
  import opened Base
  import opened Volumes
  import opened VolumeCalls
  import opened VolumeSafety
  import VolumeControllers

  function VolumesOf(w: World): map<string, Volume> {
    map n | n in w.pvs :: w.pvs[n].vol
  }

  /** The cluster a world stands for; the namespaces are no part of the call machine. */
  function View(w: World, namespaces: set<string>): Cluster {
    Cluster(VolumesOf(w), w.pvcs, w.pods, namespaces)
  }

  /** Call i of the run is the party's own, and its pass is under way: it began with the first call. */
  ghost predicate OwnAt(party: Party, p: nat, ws: seq<World>, calls: seq<Call>, i: int)
    requires 0 <= i < |calls| < |ws|
  {
    Makes(party, p, calls[i]) && (i > 0 ==> !At(ws[i], p).Idle?)
  }

  /** A run from w to w' made of this party's calls alone, all of one pass. */
  ghost predicate Leads(party: Party, p: nat, ws: seq<World>, calls: seq<Call>, w: World, w': World) {
    && IsRun(ws, calls) && ws[0] == w && ws[|calls|] == w'
    && forall i :: 0 <= i < |calls| ==> OwnAt(party, p, ws, calls, i)
  }

  ghost predicate Reaches(party: Party, p: nat, w: World, w': World) {
    exists ws, calls :: Leads(party, p, ws, calls, w, w')
  }

  lemma ReachesItself(party: Party, p: nat, w: World)
    ensures Reaches(party, p, w, w)
  {
    assert Leads(party, p, [w], [], w, w);
  }

  lemma OneCall(party: Party, p: nat, w: World, c: Call)
    requires Enabled(w, c) && Makes(party, p, c)
    ensures Reaches(party, p, w, Next(w, c))
  {
    var ws := [w, Next(w, c)];
    assert StepAt(ws, [c], 0) && OwnAt(party, p, ws, [c], 0);
    assert Leads(party, p, ws, [c], w, Next(w, c));
  }

  lemma Onwards(party: Party, p: nat, w: World, w': World, w'': World)
    requires Reaches(party, p, w, w') && Reaches(party, p, w', w'') && (w == w' || !At(w', p).Idle?)
    ensures Reaches(party, p, w, w'')
  {
    if w != w' {
      var ws, calls :| Leads(party, p, ws, calls, w, w');
      var more, moreCalls :| Leads(party, p, more, moreCalls, w', w'');
      Joined(party, p, w, w', w'', ws, calls, more, moreCalls);
    }
  }

  lemma Joined(party: Party, p: nat, w: World, w': World, w'': World,
      ws: seq<World>, calls: seq<Call>, more: seq<World>, moreCalls: seq<Call>)
    requires Leads(party, p, ws, calls, w, w') && Leads(party, p, more, moreCalls, w', w'') && !At(w', p).Idle?
    ensures Leads(party, p, ws + more[1..], calls + moreCalls, w, w'')
  {
    var all, allCalls := ws + more[1..], calls + moreCalls;
    forall i | 0 <= i < |allCalls| ensures StepAt(all, allCalls, i) && OwnAt(party, p, all, allCalls, i) {
      if i < |calls| {
        assert StepAt(ws, calls, i) && OwnAt(party, p, ws, calls, i);
      } else {
        assert all[i] == more[i - |calls|] && all[i + 1] == more[i + 1 - |calls|];
        assert StepAt(more, moreCalls, i - |calls|) && OwnAt(party, p, more, moreCalls, i - |calls|);
      }
    }
  }

  lemma AndCall(party: Party, p: nat, w: World, w': World, c: Call)
    requires Reaches(party, p, w, w') && Enabled(w', c) && Makes(party, p, c) && (w == w' || !At(w', p).Idle?)
    ensures Reaches(party, p, w, Next(w', c))
  {
    OneCall(party, p, w', c);
    Onwards(party, p, w, w', Next(w', c));
  }

  /** From w the party has come to w' and stands at l, and the stored objects are those of w. */
  ghost predicate Standing(party: Party, p: nat, w: World, w': World, l: Local) {
    Reaches(party, p, w, w') && At(w', p) == l && w'.pvs == w.pvs && w'.pvcs == w.pvcs && w'.pods == w.pods
  }

  /** An update nobody came between: the volume is stored, the party goes on. */
  lemma UpdateGoesThrough(party: Party, p: nat, w: World) returns (w': World)
    requires At(w, p).Pending? && At(w, p).name in w.pvs && w.pvs[At(w, p).name] == At(w, p).base
    ensures Reaches(party, p, w, w') && At(w', p) == AfterUpdate(At(w, p), true) && w'.pvcs == w.pvcs && w'.pods == w.pods
    ensures VolumesOf(w') == VolumesOf(w)[At(w, p).name := At(w, p).vol]
    ensures forall n :: n in w.pvs && n != At(w, p).name ==> n in w'.pvs && w'.pvs[n] == w.pvs[n]
  {
    w' := Next(w, Update(p));
    OneCall(party, p, w, Update(p));
  }

  // ---- the delete handler ----

  lemma HandlerAsks(w: World, p: nat, key: ClaimKey, listed: bool) returns (w': World)
    requires At(w, p).Idle? && key in w.pvcs && !(listed && InUse(w.pods, key))
    ensures Standing(DeleteHandler, p, w, w', ClaimUnused(key))
  {
    var w1 := Next(w, GetClaim(p, key));
    OneCall(DeleteHandler, p, w, GetClaim(p, key));
    w' := Next(w1, CheckPods(p, listed));
    AndCall(DeleteHandler, p, w, w1, CheckPods(p, listed));
  }

  lemma HandlerMarks(w: World, p: nat, key: ClaimKey, pick: Option<string>) returns (w': World)
    requires At(w, p) == ClaimUnused(key) && PicksAt(w, key, pick)
    ensures Reaches(DeleteHandler, p, w, w') && At(w', p) == ClaimNext(key) && w'.pvcs == w.pvcs && w'.pods == w.pods
    ensures VolumesOf(w') == if pick.None? then VolumesOf(w) else VolumesOf(w)[pick.value := Marked(w.pvs[pick.value].vol, key)]
  {
    w' := Next(w, PickVolume(p, pick));
    OneCall(DeleteHandler, p, w, PickVolume(p, pick));
    if pick.Some? {
      var w1 := w';
      w' := Next(w1, Update(p));
      AndCall(DeleteHandler, p, w, w1, Update(p));
    }
  }

  lemma PicksAgree(w: World, w': World, key: ClaimKey, pick: Option<string>, namespaces: set<string>)
    requires Picks(View(w, namespaces), key, pick) && w'.pvs == w.pvs
    ensures PicksAt(w', key, pick)
  {
    forall n | n in w.pvs ensures n in VolumesOf(w) && VolumesOf(w)[n] == w.pvs[n].vol {
    }
  }

  /** A delete request that is granted is one undisturbed run of the handler, whether or not its last call is answered. */
  lemma HandlerPassIsCalls(w: World, p: nat, key: ClaimKey, pick: Option<string>, a: Answers, namespaces: set<string>)
    returns (w': World)
    requires At(w, p).Idle? && Picks(View(w, namespaces), key, pick) && Deletable(View(w, namespaces), key, a)
    ensures Reaches(DeleteHandler, p, w, w') && At(w', p).Idle?
    ensures View(w', namespaces) == DeleteClaim(View(w, namespaces), key, pick, a)
  {
    w' := HandlerAsks(w, p, key, a.listed);
    if a.stored {
      PicksAgree(w, w', key, pick, namespaces);
      w' := HandlerGoesOn(w, w', p, key, pick, a, namespaces);
    } else {
      AndCall(DeleteHandler, p, w, w', GiveUp(p));
      w' := Next(w', GiveUp(p));
    }
  }

  lemma HandlerGoesOn(w: World, w1: World, p: nat, key: ClaimKey, pick: Option<string>, a: Answers, namespaces: set<string>)
    returns (w': World)
    requires Standing(DeleteHandler, p, w, w1, ClaimUnused(key)) && PicksAt(w1, key, pick) && a.stored
    requires Picks(View(w, namespaces), key, pick) && Deletable(View(w, namespaces), key, a)
    ensures Reaches(DeleteHandler, p, w, w') && At(w', p).Idle?
    ensures View(w', namespaces) == DeleteClaim(View(w, namespaces), key, pick, a)
  {
    var w2 := HandlerMarks(w1, p, key, pick);
    Onwards(DeleteHandler, p, w, w1, w2);
    var last := if a.done then DeleteItsClaim(p) else GiveUp(p);
    w' := Next(w2, last);
    AndCall(DeleteHandler, p, w, w2, last);
  }

  // ---- the component controller ----

  lemma ComponentAsks(w: World, p: nat, key: ClaimKey, claim: Claim, name: string, listed: bool) returns (w': World)
    requires At(w, p).Idle? && key !in w.pvcs && claim.selects == Some(name) && name in w.pvs
    ensures Standing(ComponentController, p, w, w', AfterGetOwner(w, key, claim, name, listed))
  {
    var w1 := Next(w, GetWanted(p, key, claim, name));
    OneCall(ComponentController, p, w, GetWanted(p, key, claim, name));
    w' := Next(w1, GetOwner(p, listed));
    AndCall(ComponentController, p, w, w1, GetOwner(p, listed));
  }

  function AfterGetOwner(w: World, key: ClaimKey, claim: Claim, name: string, listed: bool): Local
    requires name in w.pvs
  {
    var base := w.pvs[name];
    if base.vol.claimRef.None? then Creating(key, claim)
    else if base.vol.claimRef.value !in w.pvcs then Pending(name, base, Cleared(base.vol), ToCreate(key, claim))
    else if base.vol.retain && !(listed && InUse(w.pods, base.vol.claimRef.value)) then OwnerUnused(key, claim, name, base)
    else Creating(key, claim)
  }

  /** The pending update is stored or lost; the component controller goes on either way. */
  lemma UpdateOrNot(w: World, p: nat, stored: bool, namespaces: set<string>) returns (w': World)
    requires At(w, p).Pending? && At(w, p).after.ToCreate?
    requires At(w, p).name in w.pvs && w.pvs[At(w, p).name] == At(w, p).base
    ensures Reaches(ComponentController, p, w, w') && At(w', p) == Creating(At(w, p).after.key, At(w, p).after.claim)
    ensures var c := View(w, namespaces);
      View(w', namespaces) == if stored then c.(pvs := c.pvs[At(w, p).name := At(w, p).vol]) else c
  {
    if stored {
      w' := UpdateGoesThrough(ComponentController, p, w);
    } else {
      w' := Next(w, LoseUpdate(p));
      OneCall(ComponentController, p, w, LoseUpdate(p));
    }
  }

  /** Freeing the volume ends before the claim is created, or with the party stopped by the panic. */
  lemma ComponentFrees(w: World, p: nat, key: ClaimKey, claim: Claim, name: string, a: Answers, namespaces: set<string>)
    returns (w': World)
    requires name in w.pvs && At(w, p) == AfterGetOwner(w, key, claim, name, a.listed)
    ensures Reaches(ComponentController, p, w, w') && View(w', namespaces) == FreeForReuse(View(w, namespaces), name, a).0
    ensures At(w', p) == if FreeForReuse(View(w, namespaces), name, a).1.Proceed? then Creating(key, claim) else Idle
  {
    w' := w;
    ReachesItself(ComponentController, p, w);
    if At(w, p).OwnerUnused? {
      w' := Next(w, DeleteOwner(p));
      OneCall(ComponentController, p, w, DeleteOwner(p));
    }
    if At(w', p).Pending? {
      var w1 := w';
      w' := UpdateOrNot(w1, p, a.stored, namespaces);
      Onwards(ComponentController, p, w, w1, w');
    }
  }

  /** The claim is created, or that call fails. */
  lemma ComponentCreates(w: World, p: nat, key: ClaimKey, claim: Claim, done: bool, namespaces: set<string>)
    returns (w': World)
    requires At(w, p) == Creating(key, claim) && key !in w.pvcs
    ensures Reaches(ComponentController, p, w, w') && At(w', p).Idle?
    ensures var c := View(w, namespaces);
      View(w', namespaces) == if done then c.(pvcs := c.pvcs[key := claim]) else c
  {
    var last := if done then CreateClaim(p) else GiveUp(p);
    w' := Next(w, last);
    OneCall(ComponentController, p, w, last);
  }

  /** Preparing a claim is one undisturbed run of the component controller, on every branch and whatever is answered. */
  lemma ComponentPassIsCalls(w: World, p: nat, key: ClaimKey, claim: Claim, a: Answers, namespaces: set<string>)
    returns (w': World)
    requires At(w, p).Idle?
    ensures Reaches(ComponentController, p, w, w') && At(w', p).Idle?
    ensures View(w', namespaces) == ComponentPass(View(w, namespaces), key, claim, a)
  {
    w' := w;
    ReachesItself(ComponentController, p, w);
    if key !in w.pvcs {
      if claim.selects.None? {
        w' := Next(w, WantPlain(p, key, claim));
        OneCall(ComponentController, p, w, WantPlain(p, key, claim));
      } else if claim.selects.value in w.pvs {
        var w1 := ComponentAsks(w, p, key, claim, claim.selects.value, a.listed);
        w' := ComponentFrees(w1, p, key, claim, claim.selects.value, a, namespaces);
        Onwards(ComponentController, p, w, w1, w');
      }
      if At(w', p).Creating? {
        var w2 := w';
        w' := ComponentCreates(w2, p, key, claim, a.done, namespaces);
        Onwards(ComponentController, p, w, w2, w');
      }
    }
  }

  // ---- the PV controller on one volume ----

  /** Adoption up to the claim: the stale reference is dropped if it is to be. */
  lemma ReferenceIsDropped(w: World, p: nat, name: string, snap: map<string, Stored>, namespaces: set<string>)
    returns (w': World)
    requires name in w.pvs && Adoptable(w.pvs[name].vol) && At(w, p) == AdoptNext(name, w.pvs[name], snap)
    ensures Reaches(PvController, p, w, w')
    ensures At(w', p).OrphanClaimNext? && At(w', p).name == name && At(w', p).snap == snap
    ensures OrphanClaim(name, At(w', p).vol) == OrphanClaim(name, w.pvs[name].vol)
    ensures View(w', namespaces) == HalfAdopt(View(w, namespaces), name)
    ensures forall n :: n in w.pvs && n != name ==> n in w'.pvs && w'.pvs[n] == w.pvs[n]
  {
    if At(w, p).Pending? {
      w' := UpdateGoesThrough(PvController, p, w);
    } else {
      w' := w;
      ReachesItself(PvController, p, w);
      assert VolumesOf(w)[name := w.pvs[name].vol] == VolumesOf(w);
    }
  }

  /** Adopting a volume whose stored copy is the one read. */
  lemma AdoptionIsCalls(w: World, p: nat, name: string, snap: map<string, Stored>, namespaces: set<string>)
    returns (w': World)
    requires name in w.pvs && Adoptable(w.pvs[name].vol) && At(w, p) == AdoptNext(name, w.pvs[name], snap)
    ensures Reaches(PvController, p, w, w') && At(w', p) == Listed(snap)
    ensures View(w', namespaces) == AdoptOne(View(w, namespaces), name, w.pvs[name].vol)
    ensures forall n :: n in w.pvs && n != name ==> n in w'.pvs && w'.pvs[n] == w.pvs[n]
  {
    var w1 := ReferenceIsDropped(w, p, name, snap, namespaces);
    w' := Next(w1, CreateOrphanClaim(p));
    AndCall(PvController, p, w, w1, CreateOrphanClaim(p));
  }

  lemma VolumeIsRead(w: World, p: nat, name: string) returns (w': World)
    requires At(w, p).Idle? && name in w.pvs && w.pvs[name].vol.claimRef.Some?
    ensures Standing(PvController, p, w, w', AfterGetItsClaim(w, name))
  {
    var w1 := Next(w, GetVolume(p, name));
    OneCall(PvController, p, w, GetVolume(p, name));
    w' := Next(w1, GetItsClaim(p));
    AndCall(PvController, p, w, w1, GetItsClaim(p));
  }

  function AfterGetItsClaim(w: World, name: string): Local
    requires name in w.pvs && w.pvs[name].vol.claimRef.Some?
  {
    var base := w.pvs[name];
    var key := base.vol.claimRef.value;
    if key in w.pvcs then
      if IsManaged(w.pvcs[key].labels) then Pending(name, base, Adorned(name, base.vol, w.pvcs[key]), Finish) else Idle
    else if Adoptable(base.vol) then AdoptNext(name, base, map[])
    else Idle
  }

  /** Reconciling one volume is one undisturbed run of the PV controller. */
  lemma VolumePassIsCalls(w: World, p: nat, name: string, namespaces: set<string>) returns (w': World)
    requires At(w, p).Idle?
    ensures Reaches(PvController, p, w, w') && At(w', p).Idle?
    ensures View(w', namespaces) == VolumePass(View(w, namespaces), name)
  {
    w' := w;
    ReachesItself(PvController, p, w);
    if name in w.pvs && w.pvs[name].vol.claimRef.Some? {
      var w1 := VolumeIsRead(w, p, name);
      var key := w.pvs[name].vol.claimRef.value;
      if key in w.pvcs {
        w' := w1;
        if IsManaged(w.pvcs[key].labels) {
          w' := UpdateGoesThrough(PvController, p, w1);
          Onwards(PvController, p, w, w1, w');
        }
      } else {
        w' := VolumeIsAdopted(w, w1, p, name, namespaces);
      }
    }
  }

  lemma VolumeIsAdopted(w: World, w1: World, p: nat, name: string, namespaces: set<string>) returns (w': World)
    requires name in w.pvs && w.pvs[name].vol.claimRef.Some? && w.pvs[name].vol.claimRef.value !in w.pvcs
    requires Standing(PvController, p, w, w1, AfterGetItsClaim(w, name))
    ensures Reaches(PvController, p, w, w') && At(w', p).Idle?
    ensures View(w', namespaces) == AdoptOne(View(w, namespaces), name, w.pvs[name].vol)
  {
    w' := w1;
    if Adoptable(w.pvs[name].vol) {
      var w2 := AdoptionIsCalls(w1, p, name, map[], namespaces);
      Onwards(PvController, p, w, w1, w2);
      w' := Next(w2, GiveUp(p));
      AndCall(PvController, p, w, w2, GiveUp(p));
    }
  }

  /** A call failed, after the claim reference was dropped if it was to be. */
  lemma StoppedVolumePassIsCalls(w: World, p: nat, name: string, namespaces: set<string>) returns (w': World)
    requires At(w, p).Idle?
    ensures Reaches(PvController, p, w, w') && At(w', p).Idle?
    ensures View(w', namespaces) == StoppedVolumePass(View(w, namespaces), name)
  {
    if name in w.pvs && w.pvs[name].vol.claimRef.Some? && w.pvs[name].vol.claimRef.value !in w.pvcs
       && Adoptable(w.pvs[name].vol)
    {
      var w1 := VolumeIsRead(w, p, name);
      var w2 := HalfAdoptionIsCalls(w1, p, name, map[], namespaces);
      Onwards(PvController, p, w, w1, w2);
      w' := w2;
    } else {
      w' := w;
      ReachesItself(PvController, p, w);
      NothingToAdopt(View(w, namespaces), name);
    }
  }

  lemma NothingToAdopt(c: Cluster, name: string)
    requires name in c.pvs ==> !Adoptable(c.pvs[name]) || c.pvs[name].claimRef.None? || c.pvs[name].claimRef.value in c.pvcs
    ensures StoppedVolumePass(c, name) == c
  {
    if name in c.pvs {
      assert c.pvs[name := c.pvs[name]] == c.pvs;
    }
  }

  lemma HalfAdoptionIsCalls(w: World, p: nat, name: string, snap: map<string, Stored>, namespaces: set<string>)
    returns (w': World)
    requires name in w.pvs && Adoptable(w.pvs[name].vol) && At(w, p) == AdoptNext(name, w.pvs[name], snap)
    ensures Reaches(PvController, p, w, w') && At(w', p).Idle?
    ensures View(w', namespaces) == HalfAdopt(View(w, namespaces), name)
  {
    var w1 := ReferenceIsDropped(w, p, name, snap, namespaces);
    w' := PassEnds(w1, p, namespaces);
    Onwards(PvController, p, w, w1, w');
  }

  // ---- the PV controller after a claim change ----

  /** A listed volume the delete phase may take, its copy being current. */
  predicate Removable(w: World, snap: map<string, Stored>, n: string) {
    && n in w.pvs && n in snap && w.pvs[n] == snap[n]
    && MarkedForItsClaim(snap[n].vol) && snap[n].vol.claimRef.value !in w.pvcs
  }

  lemma DeletionIsCalls(w: World, p: nat, snap: map<string, Stored>, n: string) returns (w': World)
    requires At(w, p) == Listed(snap) && Removable(w, snap, n)
    ensures Reaches(PvController, p, w, w') && At(w', p) == Listed(snap)
    ensures w'.pvs == w.pvs - {n} && w'.pvcs == w.pvcs && w'.pods == w.pods
  {
    var w1 := Next(w, LookUpMarked(p, n));
    OneCall(PvController, p, w, LookUpMarked(p, n));
    w' := Next(w1, Delete(p));
    AndCall(PvController, p, w, w1, Delete(p));
  }

  lemma {:induction false} DeletionsAreCalls(w: World, p: nat, snap: map<string, Stored>, names: seq<string>)
    returns (w': World)
    requires At(w, p) == Listed(snap) && Distinct(names)
    requires forall n :: n in names ==> Removable(w, snap, n)
    ensures Reaches(PvController, p, w, w') && At(w', p) == Listed(snap)
    ensures w'.pvs == w.pvs - Elements(names) && w'.pvcs == w.pvcs && w'.pods == w.pods
    decreases |names|
  {
    w' := w;
    ReachesItself(PvController, p, w);
    if names != [] {
      var w1 := DeletionIsCalls(w, p, snap, names[0]);
      assert forall n :: n in names[1..] ==> n != names[0] && Removable(w, snap, n);
      w' := DeletionsAreCalls(w1, p, snap, names[1..]);
      Onwards(PvController, p, w, w1, w');
      assert names == [names[0]] + names[1..];
    }
  }

  /** A listed volume adoption may take, its copy being current. */
  predicate Takeable(w: World, snap: map<string, Stored>, n: string) {
    n in w.pvs && n in snap && w.pvs[n] == snap[n] && Adoptable(snap[n].vol)
  }

  lemma ListedIsAdopted(w: World, p: nat, snap: map<string, Stored>, n: string, namespaces: set<string>)
    returns (w': World)
    requires At(w, p) == Listed(snap) && Takeable(w, snap, n)
    ensures Reaches(PvController, p, w, w') && At(w', p) == Listed(snap)
    ensures View(w', namespaces) == AdoptOne(View(w, namespaces), n, w.pvs[n].vol)
    ensures forall m :: m in w.pvs && m != n ==> m in w'.pvs && w'.pvs[m] == w.pvs[m]
  {
    var w1 := Next(w, AdoptListed(p, n));
    OneCall(PvController, p, w, AdoptListed(p, n));
    w' := AdoptionIsCalls(w1, p, n, snap, namespaces);
    Onwards(PvController, p, w, w1, w');
  }

  lemma AdoptLast(c: Cluster, init: seq<string>, last: string)
    requires last in c.pvs && last !in init && Adoptable(c.pvs[last])
    ensures AdoptOne(Adopt(c, Elements(init)), last, c.pvs[last]) == Adopt(c, Elements(init + [last]))
  {
    VolumeControllers.AdoptOneMore(c, Elements(init), last);
    assert Elements(init + [last]) == Elements(init) + {last};
  }

  lemma {:induction false} AdoptionsAreCalls(w: World, p: nat, snap: map<string, Stored>, names: seq<string>,
      namespaces: set<string>)
    returns (w': World)
    requires At(w, p) == Listed(snap) && Distinct(names)
    requires forall n :: n in names ==> Takeable(w, snap, n)
    ensures Reaches(PvController, p, w, w') && At(w', p) == Listed(snap)
    ensures View(w', namespaces) == Adopt(View(w, namespaces), Elements(names))
    ensures forall n :: n in w.pvs && n !in names ==> n in w'.pvs && w'.pvs[n] == w.pvs[n]
    decreases |names|
  {
    if names == [] {
      w' := w;
      ReachesItself(PvController, p, w);
      VolumeControllers.AdoptNone(View(w, namespaces));
    } else {
      var init, last := names[..|names| - 1], names[|names| - 1];
      assert names == init + [last] && last !in init;
      assert Takeable(w, snap, last);
      var w1 := AdoptionsAreCalls(w, p, snap, init, namespaces);
      w' := ListedIsAdopted(w1, p, snap, last, namespaces);
      Onwards(PvController, p, w, w1, w');
      AdoptLast(View(w, namespaces), init, last);
    }
  }

  function DoomedNames(c: Cluster): set<string> {
    set n | n in c.pvs && Doomed(c, c.pvs[n])
  }

  function AdoptableNames(c: Cluster, names: set<string>): set<string> {
    set n | n in c.pvs && n in names && Adoptable(c.pvs[n])
  }

  lemma AdoptingSkipsTheRest(c: Cluster, names: set<string>)
    ensures Adopt(c, AdoptableNames(c, names)) == Adopt(c, names)
  {
    assert Unclaimed(c, AdoptableNames(c, names)) == Unclaimed(c, names);
  }

  /** The delete phase, then the adoption phase: one undisturbed run of the PV controller. */
  lemma ClaimChangePassIsCalls(w: World, p: nat, namespaces: set<string>) returns (w': World)
    requires At(w, p).Idle?
    ensures Reaches(PvController, p, w, w') && At(w', p).Idle?
    ensures View(w', namespaces) == ClaimChangePass(View(w, namespaces))
  {
    w' := StoppedPassIsCalls(w, p, Adopting(Orphans(View(w, namespaces)), None), namespaces);
  }

  /** Wherever the pass stops, what it has done by then is one undisturbed run of the PV controller. */
  lemma StoppedPassIsCalls(w: World, p: nat, stop: Stop, namespaces: set<string>) returns (w': World)
    requires At(w, p).Idle? && IsStop(View(w, namespaces), stop)
    ensures Reaches(PvController, p, w, w') && At(w', p).Idle?
    ensures View(w', namespaces) == StoppedPass(View(w, namespaces), stop)
  {
    var w1, snap := VolumesAreListed(w, p);
    match stop
    case Deleting(names) =>
      var w2 := DeletePhase(w1, p, snap, names, namespaces);
      w' := PassEnds(w2, p, namespaces);
      Onwards(PvController, p, w1, w2, w');
      Onwards(PvController, p, w, w1, w');
    case Adopting(names, half) =>
      w' := AdoptionStops(w1, p, snap, names, half, namespaces);
      Onwards(PvController, p, w, w1, w');
  }

  lemma AdoptionStops(w: World, p: nat, snap: map<string, Stored>, names: set<string>, half: Option<string>,
      namespaces: set<string>)
    returns (w': World)
    requires At(w, p) == Listed(snap) && ListsAll(w, snap) && IsStop(View(w, namespaces), Adopting(names, half))
    ensures Reaches(PvController, p, w, w') && At(w', p).Idle?
    ensures View(w', namespaces) == StoppedPass(View(w, namespaces), Adopting(names, half))
  {
    var c := View(w, namespaces);
    var w1 := DeletePhase(w, p, snap, c.pvs.Keys, namespaces);
    var w2 := AdoptPhase(w, w1, p, snap, names, namespaces);
    Onwards(PvController, p, w, w1, w2);
    if half.None? {
      w' := PassEnds(w2, p, namespaces);
    } else {
      w' := HalfIsAdopted(w2, p, snap, half.value, namespaces);
    }
    Onwards(PvController, p, w, w2, w');
  }

  lemma HalfIsAdopted(w: World, p: nat, snap: map<string, Stored>, name: string, namespaces: set<string>)
    returns (w': World)
    requires At(w, p) == Listed(snap) && (name in w.pvs ==> name in snap && w.pvs[name] == snap[name])
    ensures Reaches(PvController, p, w, w') && At(w', p).Idle?
    ensures View(w', namespaces) == HalfAdopt(View(w, namespaces), name)
  {
    if name in w.pvs && Adoptable(w.pvs[name].vol) {
      var w1 := Next(w, AdoptListed(p, name));
      OneCall(PvController, p, w, AdoptListed(p, name));
      w' := HalfAdoptionIsCalls(w1, p, name, snap, namespaces);
      Onwards(PvController, p, w, w1, w');
    } else {
      w' := PassEnds(w, p, namespaces);
      if name in w.pvs {
        assert VolumesOf(w)[name := w.pvs[name].vol] == VolumesOf(w);
      }
    }
  }

  lemma VolumesAreListed(w: World, p: nat) returns (w': World, snap: map<string, Stored>)
    requires At(w, p).Idle?
    ensures Standing(PvController, p, w, w', Listed(snap)) && ListsAll(w', snap)
  {
    w' := Next(w, ListManaged(p));
    snap := At(w', p).snap;
    OneCall(PvController, p, w, ListManaged(p));
  }

  lemma PassEnds(w: World, p: nat, namespaces: set<string>) returns (w': World)
    ensures Reaches(PvController, p, w, w') && At(w', p).Idle? && View(w', namespaces) == View(w, namespaces)
  {
    w' := Next(w, GiveUp(p));
    OneCall(PvController, p, w, GiveUp(p));
  }

  ghost predicate ListsAll(w: World, snap: map<string, Stored>) {
    snap == map n | n in w.pvs && IsManaged(w.pvs[n].vol.labels) :: w.pvs[n]
  }

  /** Deletes the doomed ones among these volumes. */
  lemma DeletePhase(w: World, p: nat, snap: map<string, Stored>, some: set<string>, namespaces: set<string>)
    returns (w': World)
    requires At(w, p) == Listed(snap) && ListsAll(w, snap)
    ensures Reaches(PvController, p, w, w') && At(w', p) == Listed(snap)
    ensures w'.pvs == w.pvs - DoomedNames(View(w, namespaces)) * some && w'.pvcs == w.pvcs && w'.pods == w.pods
    ensures View(w', namespaces) == DeleteDoomed(View(w, namespaces), some)
  {
    var c := View(w, namespaces);
    var names := SomeOrder(DoomedNames(c) * some);
    forall n | n in names ensures Removable(w, snap, n) {
      assert n in DoomedNames(c);
    }
    w' := DeletionsAreCalls(w, p, snap, names);
    assert Elements(names) == DoomedNames(c) * some;
  }

  /** Adopts these orphans; every other volume still there is as it was listed. */
  lemma AdoptPhase(w: World, w1: World, p: nat, snap: map<string, Stored>, some: set<string>, namespaces: set<string>)
    returns (w': World)
    requires At(w1, p) == Listed(snap) && ListsAll(w, snap)
    requires w1.pvs.Keys <= w.pvs.Keys && forall n :: n in w1.pvs ==> w1.pvs[n] == w.pvs[n]
    requires some <= Orphans(View(w, namespaces))
    ensures Reaches(PvController, p, w1, w') && At(w', p) == Listed(snap)
    ensures View(w', namespaces) == Adopt(View(w1, namespaces), some)
    ensures forall n :: n in Orphans(View(w, namespaces)) - some && n in w'.pvs ==> n in snap && w'.pvs[n] == snap[n]
  {
    var c, c1 := View(w, namespaces), View(w1, namespaces);
    var names := SomeOrder(AdoptableNames(c1, some));
    forall n | n in names ensures Takeable(w1, snap, n) {
      assert n in AdoptableNames(c1, some) && n in Orphans(c);
    }
    w' := AdoptionsAreCalls(w1, p, snap, names, namespaces);
    assert Elements(names) == AdoptableNames(c1, some);
    AdoptingSkipsTheRest(c1, some);
    assert View(w', namespaces).pvs.Keys == c1.pvs.Keys;
    forall n | n in Orphans(c) - some && n in w'.pvs ensures n in snap && w'.pvs[n] == snap[n] {
      assert n !in names && n in VolumesOf(w') && n in w1.pvs;
    }
  }
}
