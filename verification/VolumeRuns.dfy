/**
 Runs of the whole system, each pass, complete or stopped by a failed call, being one atomic step: the three Kalm
 parties, the Kubernetes binder, and users and Kubernetes creating and removing claims, pods, namespaces and
 volumes. Nobody edits the labels or the claim reference of an existing volume by hand.
 */
module VolumeRuns {
  import opened Base
  import opened Volumes

  datatype Action =
    | ClaimChange
    | StoppedClaimChange(stop: Stop)
    | VolumeChange(name: string)
    | StoppedVolumeChange(name: string)
    | ComponentRun(key: ClaimKey, claim: Claim, answers: Answers)
    | DeleteRequest(key: ClaimKey, pick: Option<string>, answers: Answers)
    // the environment
    | Bind(name: string, key: ClaimKey)
    | Provision(name: string, volume: Volume)
    | Reclaim(name: string)
    | PutClaim(key: ClaimKey, claim: Claim)
    | DropClaim(key: ClaimKey)
    | SetPods(pods: seq<Pod>)
    | SetNamespaces(namespaces: set<string>)

  ghost predicate Enabled(c: Cluster, a: Action) {
    match a
    case StoppedClaimChange(stop) => IsStop(c, stop)
    case DeleteRequest(key, pick, _) => Picks(c, key, pick)
    case Bind(name, key) => name in c.pvs && c.pvs[name].claimRef.None? && key in c.pvcs
    case Provision(name, volume) => name !in c.pvs && CleanIfPVCGone !in volume.labels
    // Kubernetes itself deletes only volumes whose reclaim policy is not Retain
    case Reclaim(name) => name in c.pvs && !c.pvs[name].retain
    case _ => true
  }

  ghost function Next(c: Cluster, a: Action): Cluster
    requires Enabled(c, a)
  {
    match a
    case ClaimChange => ClaimChangePass(c)
    case StoppedClaimChange(stop) => StoppedPass(c, stop)
    case VolumeChange(name) => VolumePass(c, name)
    case StoppedVolumeChange(name) => StoppedVolumePass(c, name)
    case ComponentRun(key, claim, answers) => ComponentPass(c, key, claim, answers)
    case DeleteRequest(key, pick, answers) => DeleteClaim(c, key, pick, answers)
    case Bind(name, key) => c.(pvs := c.pvs[name := c.pvs[name].(claimRef := Some(key))])
    case Provision(name, volume) => c.(pvs := c.pvs[name := volume])
    case Reclaim(name) => c.(pvs := c.pvs - {name})
    case PutClaim(key, claim) => c.(pvcs := c.pvcs[key := claim])
    case DropClaim(key) => c.(pvcs := c.pvcs - {key})
    case SetPods(pods) => c.(pods := pods)
    case SetNamespaces(namespaces) => c.(namespaces := namespaces)
  }

  ghost predicate IsRun(cs: seq<Cluster>, acts: seq<Action>) {
    && |cs| == |acts| + 1
    && forall i :: 0 <= i < |acts| ==> StepAt(cs, acts, i)
  }

  ghost predicate StepAt(cs: seq<Cluster>, acts: seq<Action>, i: int)
    requires 0 <= i < |acts| < |cs|
  {
    Enabled(cs[i], acts[i]) && cs[i + 1] == Next(cs[i], acts[i])
  }

  predicate Unmarked(c: Cluster, name: string) {
    name in c.pvs ==> CleanIfPVCGone !in c.pvs[name].labels
  }

  /** At moment j a user asked to delete this claim; it existed and no pod mounted it, unless the pods could not be listed. */
  ghost predicate Requested(cs: seq<Cluster>, acts: seq<Action>, j: int, key: ClaimKey) {
    && 0 <= j < |acts| < |cs| && acts[j].DeleteRequest? && acts[j].key == key
    && key in cs[j].pvcs && (acts[j].answers.listed ==> !InUse(cs[j].pods, key))
  }

  ghost predicate RequestedWithin(cs: seq<Cluster>, acts: seq<Action>, lo: int, hi: int, key: ClaimKey) {
    exists j :: lo <= j < hi && Requested(cs, acts, j, key)
  }

  /** A mark names the volume's own claim. */
  predicate MarkNamesClaim(v: Volume) {
    CleanIfPVCGone in v.labels ==> v.claimRef.Some? && v.labels[CleanIfPVCGone] == CleanMark(v.claimRef.value)
  }

  /** No new mark: one that is there was there before, with the same claim. */
  predicate MarkKept(c: Cluster, c': Cluster, name: string) {
    name in c'.pvs && CleanIfPVCGone in c'.pvs[name].labels ==>
      && name in c.pvs && CleanIfPVCGone in c.pvs[name].labels && c'.pvs[name].claimRef == c.pvs[name].claimRef
      && c'.pvs[name].labels[CleanIfPVCGone] == c.pvs[name].labels[CleanIfPVCGone]
  }

  predicate ClaimPass(a: Action) {
    a.ClaimChange? || a.StoppedClaimChange?
  }

  predicate PvPass(a: Action) {
    ClaimPass(a) || a.VolumeChange? || a.StoppedVolumeChange?
  }

  /** What any pass of the PV controller, complete or stopped, makes of one volume. */
  lemma PvPassOnVolume(c: Cluster, a: Action, name: string)
    requires Enabled(c, a) && PvPass(a) && name in Next(c, a).pvs
    ensures name in c.pvs
    ensures var v, v' := c.pvs[name], Next(c, a).pvs[name];
      v' == v || v' == AdoptedVolume(name, v)
      || (Unlocks(c, a, name) && v' == Adorned(name, v, c.pvcs[v.claimRef.value]))
  {
    match a
    case StoppedClaimChange(stop) => StoppedPassOnVolume(c, stop, name);
    case _ =>
  }

  lemma StoppedPassOnVolume(c: Cluster, stop: Stop, name: string)
    requires name in StoppedPass(c, stop).pvs
    ensures name in c.pvs
    ensures StoppedPass(c, stop).pvs[name] == c.pvs[name] || StoppedPass(c, stop).pvs[name] == AdoptedVolume(name, c.pvs[name])
  {
  }

  lemma PvPassKeepsMarks(c: Cluster, a: Action, name: string)
    requires Enabled(c, a) && PvPass(a)
    ensures MarkKept(c, Next(c, a), name)
  {
    if name in Next(c, a).pvs {
      PvPassOnVolume(c, a, name);
    }
  }

  lemma ComponentKeepsMarks(c: Cluster, a: Action, name: string)
    requires Enabled(c, a) && a.ComponentRun?
    ensures MarkKept(c, Next(c, a), name)
  {
  }

  lemma OthersKeepMarks(c: Cluster, a: Action, name: string)
    requires Enabled(c, a) && !PvPass(a) && !a.ComponentRun? && !a.DeleteRequest?
    requires name in c.pvs ==> MarkNamesClaim(c.pvs[name])
    ensures MarkKept(c, Next(c, a), name)
  {
  }

  /** One step: a mark is either there already, with the same claim, or put there by a request for that claim. */
  lemma MarkAfterStep(c: Cluster, a: Action, name: string)
    requires Enabled(c, a) && name in Next(c, a).pvs
    requires name in c.pvs ==> MarkNamesClaim(c.pvs[name])
    ensures var v := Next(c, a).pvs[name];
      && MarkNamesClaim(v)
      && (CleanIfPVCGone in v.labels ==>
            || (name in c.pvs && CleanIfPVCGone in c.pvs[name].labels && c.pvs[name].claimRef == v.claimRef)
            || (a.DeleteRequest? && Deletable(c, a.key, a.answers) && v.claimRef == Some(a.key)))
  {
    if PvPass(a) {
      PvPassKeepsMarks(c, a, name);
    } else if a.ComponentRun? {
      ComponentKeepsMarks(c, a, name);
    } else if !a.DeleteRequest? {
      OthersKeepMarks(c, a, name);
    }
  }

  /** Over every run, a mark is evidence of a request for the very claim the volume still refers to. */
  lemma {:induction false} MarkMeansRequested(cs: seq<Cluster>, acts: seq<Action>, from: nat, i: nat, name: string)
    requires IsRun(cs, acts) && from <= i <= |acts|
    requires Unmarked(cs[from], name)
    requires name in cs[i].pvs
    ensures MarkNamesClaim(cs[i].pvs[name])
    ensures CleanIfPVCGone in cs[i].pvs[name].labels ==>
      RequestedWithin(cs, acts, from, i, cs[i].pvs[name].claimRef.value)
    decreases i
  {
    if from < i {
      var c, a := cs[i - 1], acts[i - 1];
      assert StepAt(cs, acts, i - 1);
      if name in c.pvs {
        MarkMeansRequested(cs, acts, from, i - 1, name);
      }
      MarkAfterStep(c, a, name);
      if CleanIfPVCGone in cs[i].pvs[name].labels {
        var key := cs[i].pvs[name].claimRef.value;
        if a.DeleteRequest? && Deletable(c, a.key, a.answers) && a.key == key {
          assert Requested(cs, acts, i - 1, key);
        }
      }
    }
  }

  /**
   Kalm deletes a volume only after a user asked to delete the very claim it refers to, at a moment when that
   claim existed and no pod was seen to use it, and only once that claim is gone. In a run that starts without
   marks, a complete pass deletes exactly the managed, marked volumes whose claim is gone; a stopped one no other.
   */
  lemma KalmDeletesOnlyOnRequest(cs: seq<Cluster>, acts: seq<Action>, i: nat, name: string)
    requires IsRun(cs, acts) && Unmarked(cs[0], name)
    requires i < |acts| && name in cs[i].pvs && ClaimPass(acts[i])
    ensures var v := cs[i].pvs[name];
      && (name !in cs[i + 1].pvs ==> MarkedAndGone(cs[i], v) && RequestedWithin(cs, acts, 0, i, v.claimRef.value))
      && (acts[i] == ClaimChange && MarkedAndGone(cs[i], v) ==> name !in cs[i + 1].pvs)
  {
    MarkMeansRequested(cs, acts, 0, i, name);
    assert StepAt(cs, acts, i);
  }

  predicate MarkedAndGone(c: Cluster, v: Volume) {
    IsManaged(v.labels) && CleanIfPVCGone in v.labels && v.claimRef.Some? && v.claimRef.value !in c.pvcs
  }

  /** No other Kalm step deletes volumes at all. */
  lemma OnlyTheClaimPassDeletes(c: Cluster, a: Action, name: string)
    requires Enabled(c, a) && name in c.pvs && name !in Next(c, a).pvs
    ensures (ClaimPass(a) && Doomed(c, c.pvs[name])) || (a == Reclaim(name) && !c.pvs[name].retain)
  {
  }

  predicate OfKalm(a: Action) {
    PvPass(a) || a.ComponentRun? || a.DeleteRequest?
  }

  /** Kalm takes an existing claim away from a pod that mounts it only when it could not list the pods. */
  lemma UsedClaimsStay(c: Cluster, a: Action, key: ClaimKey)
    requires Enabled(c, a) && OfKalm(a) && key in c.pvcs && InUse(c.pods, key) && key !in Next(c, a).pvcs
    ensures (a.ComponentRun? || (a.DeleteRequest? && a.key == key)) && !a.answers.listed
  {
  }

  // ---- the lock ----

  predicate Held(c: Cluster, name: string) {
    name in c.pvs && Value(c.pvs[name].labels, PVLocker) == CONTROLLER_COMPONENT && c.pvs[name].retain
  }

  /** The component controller frees the volume for re-use, taking the lock. */
  ghost predicate Frees(c: Cluster, a: Action, name: string) {
    && a.ComponentRun? && a.claim.selects == Some(name) && a.key !in c.pvcs
    && name in c.pvs && c.pvs[name].claimRef.Some? && c.pvs[name].claimRef.value in c.pvcs
    && c.pvs[name].retain && !LooksUsed(c, c.pvs[name].claimRef.value, a.answers) && c.pvs[name].labels != map[]
    && a.answers.stored
  }

  /** The pass that gives the lock back: the volume's claim exists and is one of Kalm's. */
  predicate Unlocks(c: Cluster, a: Action, name: string) {
    && a == VolumeChange(name) && name in c.pvs && c.pvs[name].claimRef.Some?
    && c.pvs[name].claimRef.value in c.pvcs && IsManaged(c.pvcs[c.pvs[name].claimRef.value].labels)
  }

  lemma FreeingTakesLock(c: Cluster, a: Action, name: string)
    requires Enabled(c, a) && Frees(c, a, name)
    ensures Held(Next(c, a), name) && Unmarked(Next(c, a), name)
    ensures Next(c, a).pvs[name].claimRef.None? && (a.answers.done ==> a.key in Next(c, a).pvcs)
  {
  }

  /** A claim preparation drops the reference of a volume that Kalm manages and nobody has locked. */
  ghost predicate Drops(c: Cluster, a: Action, name: string) {
    && a.ComponentRun? && name in c.pvs && IsManaged(c.pvs[name].labels) && !LockedByOther(c.pvs[name])
    && c.pvs[name].claimRef.Some? && name in Next(c, a).pvs && Next(c, a).pvs[name].claimRef.None?
  }

  lemma DropsHow(c: Cluster, a: Action, name: string)
    requires Enabled(c, a) && Drops(c, a, name)
    ensures Next(c, a).pvs[name] ==
      if c.pvs[name].claimRef.value in c.pvcs then FreedUnderLock(c.pvs[name]) else Cleared(c.pvs[name])
    ensures Held(Next(c, a), name) || c.pvs[name].claimRef.value !in c.pvcs
  {
  }

  lemma ClearedIsAdoptable(v: Volume)
    requires IsManaged(v.labels) && !LockedByOther(v)
    ensures Adoptable(Cleared(v)) && IsManaged(FreedUnderLock(v).labels) && !Adoptable(FreedUnderLock(v))
  {
    assert |CONTROLLER_COMPONENT| > 0 && |CONTROLLER_COMPONENT| != |CONTROLLER_KALM_PV|;
  }

  /**
   The lock is taken only when the old claim is still there to be deleted. When it is gone already the volume is
   freed without the lock, and the next claim pass makes an orphan claim for it, beside the one it was freed for.
   */
  lemma OrphanClaimAfterFreeingIff(c: Cluster, a: Action, name: string)
    requires Enabled(c, a) && Drops(c, a, name) && OrphanKey(name) !in Next(c, a).pvcs
    ensures Held(Next(c, a), name) || c.pvs[name].claimRef.value !in c.pvcs
    ensures OrphanKey(name) in ClaimChangePass(Next(c, a)).pvcs <==> c.pvs[name].claimRef.value !in c.pvcs
  {
    DropsHow(c, a, name);
    OrphanClaimFor(Next(c, a), name, c.pvs[name], c.pvs[name].claimRef.value !in c.pvcs);
  }

  lemma OrphanClaimFor(d: Cluster, name: string, v: Volume, gone: bool)
    requires name in d.pvs && d.pvs[name] == (if gone then Cleared(v) else FreedUnderLock(v))
    requires IsManaged(v.labels) && !LockedByOther(v) && OrphanKey(name) !in d.pvcs
    ensures OrphanKey(name) in ClaimChangePass(d).pvcs <==> gone
  {
    ClearedIsAdoptable(v);
    AdoptedGetsClaim(d, name);
  }

  lemma AdoptedGetsClaim(d: Cluster, name: string)
    requires name in d.pvs && IsManaged(d.pvs[name].labels) && d.pvs[name].claimRef.None? && OrphanKey(name) !in d.pvcs
    ensures OrphanKey(name) in ClaimChangePass(d).pvcs <==> Adoptable(d.pvs[name])
  {
    OrphanKeyInjective();
    assert name in Orphans(d) && name in DeleteDoomed(d, d.pvs.Keys).pvs;
  }

  /** A held volume stays held until the unlocking pass, unless the claim pass finds it marked and deletes it. */
  lemma HeldStep(c: Cluster, a: Action, name: string)
    requires Enabled(c, a) && Held(c, name) && !Unlocks(c, a, name)
    ensures Held(Next(c, a), name) || (ClaimPass(a) && Doomed(c, c.pvs[name]) && name !in Next(c, a).pvs)
  {
    assert |CONTROLLER_COMPONENT| > 0 && |CONTROLLER_COMPONENT| != |CONTROLLER_KALM_PV|;
    if PvPass(a) {
      if name in Next(c, a).pvs { PvPassOnVolume(c, a, name); }
    }
  }

  /** While a volume is held, no pass of the PV controller makes an orphan claim for it. */
  lemma NoOrphanClaimWhileHeld(c: Cluster, a: Action, name: string)
    requires Enabled(c, a) && Held(c, name) && PvPass(a)
    ensures OrphanKey(name) in Next(c, a).pvcs ==> OrphanKey(name) in c.pvcs
  {
    assert |CONTROLLER_COMPONENT| != |CONTROLLER_KALM_PV|;
    OrphanKeyInjective();
  }

  lemma DeletedOnRequest(cs: seq<Cluster>, acts: seq<Action>, freed: nat, m: nat, name: string)
    requires IsRun(cs, acts) && freed < m < |acts| && Frees(cs[freed], acts[freed], name)
    requires name in cs[m].pvs && Doomed(cs[m], cs[m].pvs[name])
    ensures RequestedWithin(cs, acts, freed + 1, m, cs[m].pvs[name].claimRef.value)
  {
    assert StepAt(cs, acts, freed);
    FreeingTakesLock(cs[freed], acts[freed], name);
    MarkMeansRequested(cs, acts, freed + 1, m, name);
  }

  lemma {:induction false} HeldUntil(cs: seq<Cluster>, acts: seq<Action>, freed: nat, m: nat, name: string)
    requires IsRun(cs, acts) && freed < m <= |acts| && Frees(cs[freed], acts[freed], name)
    requires forall t :: freed < t < m ==> name in cs[t].pvs && !Unlocks(cs[t], acts[t], name)
    ensures Held(cs[m], name) ||
            (freed + 1 < m && name !in cs[m].pvs && ClaimPass(acts[m - 1]) && Doomed(cs[m - 1], cs[m - 1].pvs[name]))
    decreases m
  {
    assert StepAt(cs, acts, m - 1);
    if m == freed + 1 {
      FreeingTakesLock(cs[freed], acts[freed], name);
    } else {
      HeldUntil(cs, acts, freed, m - 1, name);
      HeldStep(cs[m - 1], acts[m - 1], name);
    }
  }

  /** From freeing to unlocking, this step of the PV controller adds no orphan claim for the volume. */
  ghost predicate NoOrphanClaimAt(cs: seq<Cluster>, acts: seq<Action>, m: nat, name: string)
    requires m < |acts| < |cs|
  {
    PvPass(acts[m]) ==> OrphanKey(name) !in cs[m + 1].pvcs - cs[m].pvcs.Keys
  }

  /**
   From the step that frees a volume under the lock until the pass that removes the lock: the volume keeps the
   lock, and no PV controller pass makes an orphan claim for it. If the volume disappears, the claim pass
   deleted it, and since it was freed a user asked to delete the claim it then referred to.
   */
  lemma LockProtects(cs: seq<Cluster>, acts: seq<Action>, freed: nat, m: nat, name: string)
    requires IsRun(cs, acts) && freed < m <= |acts| && Frees(cs[freed], acts[freed], name)
    requires forall t :: freed < t < m ==> name in cs[t].pvs && !Unlocks(cs[t], acts[t], name)
    ensures name in cs[m].pvs ==> Held(cs[m], name) && (m < |acts| ==> NoOrphanClaimAt(cs, acts, m, name))
    ensures name !in cs[m].pvs ==>
      && ClaimPass(acts[m - 1]) && cs[m - 1].pvs[name].claimRef.Some?
      && RequestedWithin(cs, acts, freed + 1, m - 1, cs[m - 1].pvs[name].claimRef.value)
  {
    HeldUntil(cs, acts, freed, m, name);
    if !Held(cs[m], name) {
      DeletedOnRequest(cs, acts, freed, m - 1, name);
    } else if m < |acts| {
      HeldKeepsOrphanClaimsAway(cs, acts, m, name);
    }
  }

  lemma HeldKeepsOrphanClaimsAway(cs: seq<Cluster>, acts: seq<Action>, m: nat, name: string)
    requires IsRun(cs, acts) && m < |acts| && Held(cs[m], name)
    ensures NoOrphanClaimAt(cs, acts, m, name)
  {
    assert StepAt(cs, acts, m);
    if PvPass(acts[m]) {
      NoOrphanClaimWhileHeld(cs[m], acts[m], name);
    }
  }
}
