/**
 The other direction: whatever an undisturbed delete handler or component controller does call by call, from start
 to end, is one atomic request or one atomic claim preparation with some answers.
 */
module VolumeOwnRuns {
  import opened Base
  import opened Volumes
  import opened VolumeCalls
  import opened VolumeSafety
  import opened VolumeRefinement

  // ---- the delete handler ----

  ghost predicate IsRequest(c: Cluster, d: Cluster, key: ClaimKey, pick: Option<string>, a: Answers) {
    Picks(c, key, pick) && Deletable(c, key, a) && d == DeleteClaim(c, key, pick, a)
  }

  /** Nothing, or what a granted request does. */
  ghost predicate RequestDid(c: Cluster, d: Cluster) {
    d == c || exists key, pick, a :: IsRequest(c, d, key, pick, a)
  }

  ghost predicate SeenUnused(c: Cluster, key: ClaimKey) {
    exists listed :: Deletable(c, key, Answers(listed, true, true))
  }

  /** Where the handler stands and what it has done to the cluster it began with. */
  ghost predicate HandlerMidway(c: Cluster, w: World, l: Local, namespaces: set<string>) {
    var d := View(w, namespaces);
    match l
    case Idle => RequestDid(c, d)
    case ClaimFound(key) => d == c && key in c.pvcs
    case ClaimUnused(key) => d == c && SeenUnused(c, key)
    case Pending(name, base, vol, after) =>
      && d == c && after.ToDelete? && SeenUnused(c, after.key)
      && name in w.pvs && w.pvs[name] == base && base.vol.claimRef == Some(after.key) && vol == Marked(base.vol, after.key)
    case ClaimNext(key) =>
      exists pick, listed :: IsRequest(c, d, key, pick, Answers(listed, true, false))
    case _ => false
  }

  lemma PicksInView(w: World, key: ClaimKey, pick: Option<string>, namespaces: set<string>)
    requires PicksAt(w, key, pick)
    ensures Picks(View(w, namespaces), key, pick)
  {
  }

  lemma HandlerPicks(c: Cluster, w: World, p: nat, pick: Option<string>, namespaces: set<string>)
    requires HandlerMidway(c, w, At(w, p), namespaces) && Enabled(w, PickVolume(p, pick))
    ensures HandlerMidway(c, Next(w, PickVolume(p, pick)), At(Next(w, PickVolume(p, pick)), p), namespaces)
  {
    var key, w' := At(w, p).key, Next(w, PickVolume(p, pick));
    PicksInView(w, key, pick, namespaces);
    assert View(w', namespaces) == c;
    if pick.None? {
      var listed :| Deletable(c, key, Answers(listed, true, true));
      assert IsRequest(c, View(w', namespaces), key, pick, Answers(listed, true, false));
    }
  }

  lemma HandlerChecks(c: Cluster, w: World, p: nat, listed: bool, namespaces: set<string>)
    requires HandlerMidway(c, w, At(w, p), namespaces) && Enabled(w, CheckPods(p, listed))
    ensures HandlerMidway(c, Next(w, CheckPods(p, listed)), At(Next(w, CheckPods(p, listed)), p), namespaces)
  {
    assert Deletable(c, At(w, p).key, Answers(listed, true, true));
  }

  lemma HandlerUpdates(c: Cluster, w: World, p: nat, namespaces: set<string>)
    requires HandlerMidway(c, w, At(w, p), namespaces) && Enabled(w, Update(p))
    ensures HandlerMidway(c, Next(w, Update(p)), At(Next(w, Update(p)), p), namespaces)
  {
    var l, w' := At(w, p), Next(w, Update(p));
    var listed :| Deletable(c, l.after.key, Answers(listed, true, true));
    assert VolumesOf(w') == VolumesOf(w)[l.name := l.vol];
    assert IsRequest(c, View(w', namespaces), l.after.key, Some(l.name), Answers(listed, true, false));
  }

  lemma HandlerDeletes(c: Cluster, w: World, p: nat, namespaces: set<string>)
    requires HandlerMidway(c, w, At(w, p), namespaces) && At(w, p).ClaimNext?
    ensures HandlerMidway(c, Next(w, DeleteItsClaim(p)), At(Next(w, DeleteItsClaim(p)), p), namespaces)
  {
    var key := At(w, p).key;
    var pick, listed :| IsRequest(c, View(w, namespaces), key, pick, Answers(listed, true, false));
    assert IsRequest(c, View(Next(w, DeleteItsClaim(p)), namespaces), key, pick, Answers(listed, true, true));
  }

  lemma HandlerStops(c: Cluster, w: World, p: nat, call: Call, namespaces: set<string>)
    requires HandlerMidway(c, w, At(w, p), namespaces) && Enabled(w, call)
    requires call == LoseUpdate(p) || call == GiveUp(p)
    ensures HandlerMidway(c, Next(w, call), At(Next(w, call), p), namespaces)
  {
    var l, d := At(w, p), View(w, namespaces);
    assert View(Next(w, call), namespaces) == d && At(Next(w, call), p) == Idle;
    if l.ClaimNext? {
      var pick, listed :| IsRequest(c, d, l.key, pick, Answers(listed, true, false));
    }
  }

  lemma HandlerReads(c: Cluster, w: World, p: nat, key: ClaimKey, namespaces: set<string>)
    requires View(w, namespaces) == c && Enabled(w, GetClaim(p, key))
    ensures HandlerMidway(c, Next(w, GetClaim(p, key)), ClaimFound(key), namespaces)
  {
  }

  lemma HandlerStaysMidway(c: Cluster, w: World, p: nat, call: Call, namespaces: set<string>)
    requires Enabled(w, call) && Makes(DeleteHandler, p, call)
    requires HandlerMidway(c, w, At(w, p), namespaces) && (At(w, p).Idle? ==> View(w, namespaces) == c)
    ensures HandlerMidway(c, Next(w, call), At(Next(w, call), p), namespaces)
  {
    match call
    case GetClaim(_, key) => HandlerReads(c, w, p, key, namespaces);
    case CheckPods(_, listed) => HandlerChecks(c, w, p, listed, namespaces);
    case PickVolume(_, pick) => HandlerPicks(c, w, p, pick, namespaces);
    case Update(_) => HandlerUpdates(c, w, p, namespaces);
    case DeleteItsClaim(_) => HandlerDeletes(c, w, p, namespaces);
    case _ => HandlerStops(c, w, p, call, namespaces);
  }

  lemma {:induction false} HandlerRunMidway(ws: seq<World>, calls: seq<Call>, p: nat, w: World, w': World, i: nat,
      namespaces: set<string>)
    requires Leads(DeleteHandler, p, ws, calls, w, w') && At(w, p).Idle? && i <= |calls|
    ensures HandlerMidway(View(w, namespaces), ws[i], At(ws[i], p), namespaces)
  {
    if i > 0 {
      HandlerRunMidway(ws, calls, p, w, w', i - 1, namespaces);
      assert StepAt(ws, calls, i - 1) && OwnAt(DeleteHandler, p, ws, calls, i - 1);
      HandlerStaysMidway(View(w, namespaces), ws[i - 1], p, calls[i - 1], namespaces);
    }
  }

  /** What the handler can do undisturbed, from start to end, is exactly what a granted request does, or nothing. */
  lemma HandlerRunsAreRequests(w: World, p: nat, d: Cluster, namespaces: set<string>)
    requires At(w, p).Idle?
    ensures (exists w' :: Reaches(DeleteHandler, p, w, w') && At(w', p).Idle? && View(w', namespaces) == d)
      <==> RequestDid(View(w, namespaces), d)
  {
    var c := View(w, namespaces);
    if w' :| Reaches(DeleteHandler, p, w, w') && At(w', p).Idle? && View(w', namespaces) == d {
      var ws, calls :| Leads(DeleteHandler, p, ws, calls, w, w');
      HandlerRunMidway(ws, calls, p, w, w', |calls|, namespaces);
    }
    if RequestDid(c, d) {
      if d == c {
        ReachesItself(DeleteHandler, p, w);
      } else {
        var key, pick, a :| IsRequest(c, d, key, pick, a);
        var w' := HandlerPassIsCalls(w, p, key, pick, a, namespaces);
      }
    }
  }

  // ---- the component controller ----

  /** Some claim preparation does this. */
  ghost predicate PreparationDid(c: Cluster, d: Cluster) {
    exists key, claim, a :: d == ComponentPass(c, key, claim, a)
  }

  /** The volume was dealt with, for a claim that is still to be created. */
  ghost predicate ReadyToCreate(c: Cluster, d: Cluster, key: ClaimKey, claim: Claim, a: Answers) {
    && key !in c.pvcs && !a.done && d == ComponentPass(c, key, claim, a)
    && (claim.selects.Some? ==> FreeForReuse(c, claim.selects.value, a).1 == Proceed)
  }

  /** The volume's update is on its way: with it the volume is freed, without it it is not. */
  ghost predicate ReadyToStore(c: Cluster, d: Cluster, key: ClaimKey, claim: Claim, name: string, vol: Volume, listed: bool) {
    && claim.selects == Some(name)
    && ReadyToCreate(c, d, key, claim, Answers(listed, false, false))
    && ReadyToCreate(c, d.(pvs := d.pvs[name := vol]), key, claim, Answers(listed, true, false))
  }

  ghost predicate Asked(c: Cluster, w: World, key: ClaimKey, claim: Claim, name: string, base: Stored) {
    key !in c.pvcs && claim.selects == Some(name) && name in w.pvs && w.pvs[name] == base
  }

  ghost predicate ComponentMidway(c: Cluster, w: World, l: Local, namespaces: set<string>) {
    var d := View(w, namespaces);
    match l
    case Idle => PreparationDid(c, d)
    case Wants(key, claim, name, base) => d == c && Asked(c, w, key, claim, name, base)
    case OwnerUnused(key, claim, name, base) =>
      && d == c && Asked(c, w, key, claim, name, base) && base.vol.retain
      && base.vol.claimRef.Some? && SeenUnused(c, base.vol.claimRef.value)
    case Pending(name, base, vol, after) =>
      && after.ToCreate? && name in w.pvs && w.pvs[name] == base
      && exists listed :: ReadyToStore(c, d, after.key, after.claim, name, vol, listed)
    case Creating(key, claim) => exists a :: ReadyToCreate(c, d, key, claim, a)
    case _ => false
  }

  lemma NothingIsAPreparation(c: Cluster, key: ClaimKey, claim: Claim)
    requires key in c.pvcs || claim.selects.None?
    ensures PreparationDid(c, c)
  {
    assert ComponentPass(c, key, claim, Answers(true, true, false)) == c;
  }

  lemma NothingDone(c: Cluster)
    ensures PreparationDid(c, c)
  {
    var key := ClaimKey("", "");
    NothingIsAPreparation(c, key, Claim(map[], None, 0, None));
  }

  lemma PlainIsWanted(c: Cluster, w: World, p: nat, key: ClaimKey, claim: Claim, namespaces: set<string>)
    requires View(w, namespaces) == c && Enabled(w, WantPlain(p, key, claim))
    ensures ComponentMidway(c, Next(w, WantPlain(p, key, claim)), Creating(key, claim), namespaces)
  {
    var w' := Next(w, WantPlain(p, key, claim));
    assert ReadyToCreate(c, View(w', namespaces), key, claim, Answers(true, true, false));
  }

  lemma VolumeIsWanted(c: Cluster, w: World, p: nat, key: ClaimKey, claim: Claim, name: string, namespaces: set<string>)
    requires View(w, namespaces) == c && Enabled(w, GetWanted(p, key, claim, name))
    ensures ComponentMidway(c, Next(w, GetWanted(p, key, claim, name)), Wants(key, claim, name, w.pvs[name]), namespaces)
  {
  }

  lemma OwnerIsLookedUp(c: Cluster, w: World, p: nat, listed: bool, namespaces: set<string>)
    requires ComponentMidway(c, w, At(w, p), namespaces) && Enabled(w, GetOwner(p, listed))
    ensures ComponentMidway(c, Next(w, GetOwner(p, listed)), At(Next(w, GetOwner(p, listed)), p), namespaces)
  {
    var l, w' := At(w, p), Next(w, GetOwner(p, listed));
    assert c.pvs[l.name] == l.base.vol;
    var l' := At(w', p);
    assert View(w', namespaces) == c;
    match l' {
      case Creating(_, _) => assert ReadyToCreate(c, View(w', namespaces), l.key, l.claim, Answers(listed, true, false));
      case Pending(_, _, _, _) => assert ReadyToStore(c, View(w', namespaces), l.key, l.claim, l.name, l'.vol, listed);
      case OwnerUnused(_, _, _, _) => assert Deletable(c, l.base.vol.claimRef.value, Answers(listed, true, true));
    }
  }

  lemma OwnerIsDeleted(c: Cluster, w: World, p: nat, namespaces: set<string>)
    requires ComponentMidway(c, w, At(w, p), namespaces) && Enabled(w, DeleteOwner(p))
    ensures ComponentMidway(c, Next(w, DeleteOwner(p)), At(Next(w, DeleteOwner(p)), p), namespaces)
  {
    var l, w' := At(w, p), Next(w, DeleteOwner(p));
    assert c.pvs[l.name] == l.base.vol;
    var listed :| Deletable(c, l.base.vol.claimRef.value, Answers(listed, true, true));
    var d := View(w', namespaces);
    if l.base.vol.labels == map[] {
      assert d == ComponentPass(c, l.key, l.claim, Answers(listed, true, true));
    } else {
      assert ReadyToStore(c, d, l.key, l.claim, l.name, FreedUnderLock(l.base.vol), listed);
    }
  }

  lemma UpdateIsAnswered(c: Cluster, w: World, p: nat, call: Call, namespaces: set<string>)
    requires ComponentMidway(c, w, At(w, p), namespaces) && At(w, p).Pending?
    requires call == Update(p) || call == LoseUpdate(p)
    ensures ComponentMidway(c, Next(w, call), At(Next(w, call), p), namespaces)
  {
    var l, d := At(w, p), View(w, namespaces);
    var listed :| ReadyToStore(c, d, l.after.key, l.after.claim, l.name, l.vol, listed);
    if call.Update? {
      assert VolumesOf(Next(w, call)) == VolumesOf(w)[l.name := l.vol];
    }
    assert ReadyToCreate(c, View(Next(w, call), namespaces), l.after.key, l.after.claim, Answers(listed, call.Update?, false));
  }

  lemma ClaimIsCreated(c: Cluster, w: World, p: nat, namespaces: set<string>)
    requires ComponentMidway(c, w, At(w, p), namespaces) && At(w, p).Creating?
    ensures ComponentMidway(c, Next(w, CreateClaim(p)), Idle, namespaces)
  {
    var l, d := At(w, p), View(w, namespaces);
    var a :| ReadyToCreate(c, d, l.key, l.claim, a);
    assert View(Next(w, CreateClaim(p)), namespaces) == ComponentPass(c, l.key, l.claim, a.(done := true));
  }

  lemma ComponentGivesUp(c: Cluster, w: World, p: nat, namespaces: set<string>)
    requires ComponentMidway(c, w, At(w, p), namespaces)
    ensures ComponentMidway(c, Next(w, GiveUp(p)), Idle, namespaces)
  {
    NothingDone(c);
    var l, d := At(w, p), View(w, namespaces);
    assert View(Next(w, GiveUp(p)), namespaces) == d;
    if l.Creating? {
      var a :| ReadyToCreate(c, d, l.key, l.claim, a);
    } else if l.Pending? {
      var listed :| ReadyToStore(c, d, l.after.key, l.after.claim, l.name, l.vol, listed);
    }
  }

  lemma ComponentStaysMidway(c: Cluster, w: World, p: nat, call: Call, namespaces: set<string>)
    requires Enabled(w, call) && Makes(ComponentController, p, call)
    requires ComponentMidway(c, w, At(w, p), namespaces) && (At(w, p).Idle? ==> View(w, namespaces) == c)
    ensures ComponentMidway(c, Next(w, call), At(Next(w, call), p), namespaces)
  {
    match call
    case WantPlain(_, key, claim) => PlainIsWanted(c, w, p, key, claim, namespaces);
    case GetWanted(_, key, claim, name) => VolumeIsWanted(c, w, p, key, claim, name, namespaces);
    case GetOwner(_, listed) => OwnerIsLookedUp(c, w, p, listed, namespaces);
    case DeleteOwner(_) => OwnerIsDeleted(c, w, p, namespaces);
    case CreateClaim(_) => ClaimIsCreated(c, w, p, namespaces);
    case GiveUp(_) => ComponentGivesUp(c, w, p, namespaces);
    case _ => UpdateIsAnswered(c, w, p, call, namespaces);
  }

  lemma {:induction false} ComponentRunMidway(ws: seq<World>, calls: seq<Call>, p: nat, w: World, w': World, i: nat,
      namespaces: set<string>)
    requires Leads(ComponentController, p, ws, calls, w, w') && At(w, p).Idle? && i <= |calls|
    ensures ComponentMidway(View(w, namespaces), ws[i], At(ws[i], p), namespaces)
  {
    if i == 0 {
      NothingDone(View(w, namespaces));
    } else {
      ComponentRunMidway(ws, calls, p, w, w', i - 1, namespaces);
      assert StepAt(ws, calls, i - 1) && OwnAt(ComponentController, p, ws, calls, i - 1);
      ComponentStaysMidway(View(w, namespaces), ws[i - 1], p, calls[i - 1], namespaces);
    }
  }

  /** What the component controller can do undisturbed, from start to end, is exactly what some claim preparation does. */
  lemma ComponentRunsArePreparations(w: World, p: nat, d: Cluster, namespaces: set<string>)
    requires At(w, p).Idle?
    ensures (exists w' :: Reaches(ComponentController, p, w, w') && At(w', p).Idle? && View(w', namespaces) == d)
      <==> PreparationDid(View(w, namespaces), d)
  {
    var c := View(w, namespaces);
    if w' :| Reaches(ComponentController, p, w, w') && At(w', p).Idle? && View(w', namespaces) == d {
      var ws, calls :| Leads(ComponentController, p, ws, calls, w, w');
      ComponentRunMidway(ws, calls, p, w, w', |calls|, namespaces);
    }
    if PreparationDid(c, d) {
      var key, claim, a :| d == ComponentPass(c, key, claim, a);
      var w' := ComponentPassIsCalls(w, p, key, claim, a, namespaces);
    }
  }
}
