/**
 What the operations on volumes leave, said in the objects' own fields: which volumes and claims go, stay or appear,
 and what becomes of every label and claim reference.
 */
module VolumeMeaning {
  import opened Base
  import opened Volumes
  import opened VolumePasses
  import opened VolumeRuns

  // ---- the conditions, read off the objects ----

  predicate Has(labels: Labels, key: Label, value: string) {
    key in labels && labels[key] == value
  }

  /** A label's value, the empty string when there is none. */
  function LabelOf(labels: Labels, key: Label): string {
    if key in labels then labels[key] else ""
  }

  /** Kalm's volume, with no clean request on it and nobody else's lock. */
  predicate MayAdopt(v: Volume) {
    && Has(v.labels, Managed, "true") && LabelOf(v.labels, CleanIfPVCGone) == ""
    && (LabelOf(v.labels, PVLocker) == "" || LabelOf(v.labels, PVLocker) == "controller-kalm-pv")
  }

  /** Nobody can reach it: it has no claim, or one in a namespace that is gone. */
  predicate OutOfReach(c: Cluster, v: Volume) {
    v.claimRef.None? || v.claimRef.value.ns !in c.namespaces
  }

  /** A clean request for the very claim it had is on it, and that claim is gone. */
  predicate MustGo(c: Cluster, v: Volume) {
    && Has(v.labels, Managed, "true") && v.claimRef.Some?
    && Has(v.labels, CleanIfPVCGone, v.claimRef.value.ns + "-" + v.claimRef.value.name)
    && v.claimRef.value !in c.pvcs
  }

  function OwnClaim(name: string): ClaimKey {
    ClaimKey("kalm-system", "pvc-orphan-" + name)
  }

  /** The old claim shares neither namespace nor name with the volume's own one. */
  predicate ClaimIsForeign(name: string, v: Volume) {
    && v.claimRef.Some? && v.claimRef.value.ns != "kalm-system"
    && v.claimRef.value.name != "pvc-orphan-" + name
  }

  predicate Mounted(c: Cluster, key: ClaimKey) {
    exists i, j :: 0 <= i < |c.pods| && 0 <= j < |c.pods[i].vols| && c.pods[i].ns == key.ns && c.pods[i].vols[j] == Some(key.name)
  }

  lemma MountedIff(c: Cluster, key: ClaimKey)
    ensures Mounted(c, key) <==> InUse(c.pods, key)
  {
    if InUse(c.pods, key) {
      var pod :| pod in c.pods && Mounts(pod, key);
      var i :| 0 <= i < |c.pods| && c.pods[i] == pod;
      var j :| 0 <= j < |pod.vols| && pod.vols[j] == Some(key.name);
      assert c.pods[i].vols[j] == Some(key.name);
    }
    if i, j :| 0 <= i < |c.pods| && 0 <= j < |c.pods[i].vols| && c.pods[i].ns == key.ns && c.pods[i].vols[j] == Some(key.name) {
      assert Mounts(c.pods[i], key);
    }
  }

  // ---- what happens to one volume ----

  /** Nothing but the claim reference and the labels has changed. */
  predicate SameDisk(v: Volume, v': Volume) {
    v'.retain == v.retain && v'.capacity == v.capacity && v'.storageClass == v.storageClass
  }

  /** Every label but these is as it was. */
  ghost predicate SameLabelsBut(labels: Labels, labels': Labels, but: set<Label>) {
    forall l :: l !in but ==> (l in labels <==> l in labels') && (l in labels ==> labels'[l] == labels[l])
  }

  /** Without a claim, and without the clean request that went with it. */
  ghost predicate SetFree(v: Volume, v': Volume) {
    && SameDisk(v, v') && v'.claimRef.None? && CleanIfPVCGone !in v'.labels
    && SameLabelsBut(v.labels, v'.labels, {CleanIfPVCGone})
  }

  /** Without a claim, without a clean request, and under the component controller's lock. */
  ghost predicate SetFreeAndLocked(v: Volume, v': Volume) {
    && SameDisk(v, v') && v'.claimRef.None? && CleanIfPVCGone !in v'.labels
    && Has(v'.labels, PVLocker, "controller-component")
    && SameLabelsBut(v.labels, v'.labels, {CleanIfPVCGone, PVLocker})
  }

  /** Its claim's labels and its own name are on it, and the lock is off. */
  ghost predicate Described(name: string, v: Volume, v': Volume, claim: Claim) {
    && SameDisk(v, v') && v'.claimRef == v.claimRef && PVLocker !in v'.labels
    && Has(v'.labels, Managed, "true") && Has(v'.labels, PVName, name)
    && Has(v'.labels, ComponentKey, LabelOf(claim.labels, ComponentKey))
    && Has(v'.labels, NamespaceKey, LabelOf(claim.labels, NamespaceKey))
    && SameLabelsBut(v.labels, v'.labels, {Managed, PVName, ComponentKey, NamespaceKey, PVLocker})
  }

  /** The claim Kalm makes so that a volume stays reachable. */
  predicate SelectsIt(name: string, v: Volume, claim: Claim) {
    && claim.selects == Some(name) && claim.size == v.capacity && claim.storageClass == Some(v.storageClass)
    && Has(claim.labels, Managed, "true") && claim.labels.Keys == {Managed, ComponentKey, NamespaceKey}
    && claim.labels[ComponentKey] == LabelOf(v.labels, ComponentKey)
    && claim.labels[NamespaceKey] == LabelOf(v.labels, NamespaceKey)
  }

  // ---- the pass after a claim change ----

  /** A pass deletes exactly the volumes that must go, and sets free those it adopts from a foreign claim. */
  lemma ClaimPassOnVolume(c: Cluster, name: string)
    ensures name in ClaimChangePass(c).pvs <==> name in c.pvs && !MustGo(c, c.pvs[name])
    ensures name in ClaimChangePass(c).pvs ==>
      var v, v' := c.pvs[name], ClaimChangePass(c).pvs[name];
      if OutOfReach(c, v) && MayAdopt(v) && ClaimIsForeign(name, v) then SetFree(v, v') else v' == v
  {
    PassOnVolume(c, name);
  }

  lemma LeftAloneIff(c: Cluster, v: Volume)
    ensures LeftAlone(c, v) <==> OutOfReach(c, v) && MayAdopt(v)
  {
  }

  ghost predicate ToAdopt(c: Cluster, n: string) {
    n in c.pvs && OutOfReach(c, c.pvs[n]) && MayAdopt(c.pvs[n])
  }

  lemma AdoptedGetsItsClaim(c: Cluster, n: string)
    requires ToAdopt(c, n)
    ensures OwnClaim(n) in ClaimChangePass(c).pvcs
    ensures OwnClaim(n) !in c.pvcs ==> SelectsIt(n, c.pvs[n], ClaimChangePass(c).pvcs[OwnClaim(n)])
  {
    LeftAloneIff(c, c.pvs[n]);
    if OwnClaim(n) in c.pvcs {
      PassOnClaim(c, OwnClaim(n));
    } else {
      PassCreatesClaim(c, n);
    }
  }

  lemma NewClaimIsOwn(c: Cluster, key: ClaimKey)
    requires key in ClaimChangePass(c).pvcs && key !in c.pvcs
    ensures exists n :: ToAdopt(c, n) && key == OwnClaim(n)
  {
    PassOnClaim(c, key);
    var n :| n in c.pvs && LeftAlone(c, c.pvs[n]) && key == OrphanKey(n);
    LeftAloneIff(c, c.pvs[n]);
    assert ToAdopt(c, n);
  }

  /**
   After a pass every volume out of reach that may be adopted has its own claim, and there is no other new claim.
   What was there stays, and a new claim selects its volume.
   */
  lemma ClaimPassOnClaim(c: Cluster, key: ClaimKey)
    ensures key in ClaimChangePass(c).pvcs <==> key in c.pvcs || exists n :: ToAdopt(c, n) && key == OwnClaim(n)
    ensures key in c.pvcs ==> ClaimChangePass(c).pvcs[key] == c.pvcs[key]
    ensures key !in c.pvcs ==> forall n :: ToAdopt(c, n) && key == OwnClaim(n) ==>
      key in ClaimChangePass(c).pvcs && SelectsIt(n, c.pvs[n], ClaimChangePass(c).pvcs[key])
  {
    PassOnClaim(c, key);
    if key in ClaimChangePass(c).pvcs && key !in c.pvcs {
      NewClaimIsOwn(c, key);
    }
    forall n | ToAdopt(c, n) && key == OwnClaim(n)
      ensures key in ClaimChangePass(c).pvcs
      ensures key !in c.pvcs ==> SelectsIt(n, c.pvs[n], ClaimChangePass(c).pvcs[key])
    {
      AdoptedGetsItsClaim(c, n);
    }
  }

  /** A volume of a vanished namespace that may be adopted gets its claim. */
  lemma VanishedNamespaceIsNoticed(c: Cluster, name: string)
    requires name in c.pvs && MayAdopt(c.pvs[name])
    requires c.pvs[name].claimRef.Some? && c.pvs[name].claimRef.value.ns !in c.namespaces
    ensures OwnClaim(name) in ClaimChangePass(c).pvcs && name in ClaimChangePass(c).pvs
    ensures c.pvs[name].claimRef.value.ns != "kalm-system" && c.pvs[name].claimRef.value.name != "pvc-orphan-" + name ==>
      ClaimChangePass(c).pvs[name].claimRef.None?
  {
    assert ToAdopt(c, name);
    AdoptedGetsItsClaim(c, name);
    ClaimPassOnVolume(c, name);
  }

  // ---- the pass over one volume ----

  /** The volume is described by its claim when that is Kalm's, and adopted when the claim is gone. */
  lemma VolumePassOnVolume(c: Cluster, name: string)
    requires name in c.pvs && c.pvs[name].claimRef.Some?
    ensures var v, key, d := c.pvs[name], c.pvs[name].claimRef.value, VolumePass(c, name);
      && d.pvs.Keys == c.pvs.Keys && (forall n :: n in c.pvs && n != name ==> d.pvs[n] == c.pvs[n])
      && if key in c.pvcs then
           if Has(c.pvcs[key].labels, Managed, "true") then Described(name, v, d.pvs[name], c.pvcs[key])
           else d.pvs[name] == v
         else if MayAdopt(v) && ClaimIsForeign(name, v) then SetFree(v, d.pvs[name])
         else d.pvs[name] == v
  {
  }

  lemma VolumePassOnClaims(c: Cluster, name: string, key: ClaimKey)
    ensures var d := VolumePass(c, name);
      && (key in c.pvcs ==> key in d.pvcs && d.pvcs[key] == c.pvcs[key])
      && (key in d.pvcs && key !in c.pvcs <==>
            && name in c.pvs && MayAdopt(c.pvs[name]) && c.pvs[name].claimRef.Some?
            && c.pvs[name].claimRef.value !in c.pvcs && key == OwnClaim(name) && key !in c.pvcs)
      && (key in d.pvcs && key !in c.pvcs ==> SelectsIt(name, c.pvs[name], d.pvcs[key]))
  {
  }

  lemma NothingWithoutClaim(c: Cluster, name: string)
    requires name in c.pvs ==> c.pvs[name].claimRef.None?
    ensures VolumePass(c, name) == c
  {
  }

  /** The unlocking pass takes the lock off, so the volume is no longer held. */
  lemma UnlockingGivesLockBack(c: Cluster, a: Action, name: string)
    requires Enabled(c, a) && Unlocks(c, a, name)
    ensures name in Next(c, a).pvs && PVLocker !in Next(c, a).pvs[name].labels && !Held(Next(c, a), name)
    ensures Described(name, c.pvs[name], Next(c, a).pvs[name], c.pvcs[c.pvs[name].claimRef.value])
  {
    VolumePassOnVolume(c, name);
    assert |"controller-component"| > 0;
  }

  // ---- freeing a volume for another claim ----

  /** The old claim of the volume asked for goes: the volume is to be kept, and no pod is seen to mount the claim. */
  predicate OwnerGoes(c: Cluster, v: Volume, a: Answers) {
    && v.claimRef.Some? && v.claimRef.value in c.pvcs && v.retain
    && !(a.listed && Mounted(c, v.claimRef.value))
  }

  lemma ReuseOnVolume(c: Cluster, key: ClaimKey, claim: Claim, name: string, a: Answers)
    requires key !in c.pvcs && claim.selects == Some(name) && name in c.pvs
    ensures var v, d := c.pvs[name], ComponentPass(c, key, claim, a);
      && d.pvs.Keys == c.pvs.Keys && (forall n :: n in c.pvs && n != name ==> d.pvs[n] == c.pvs[n])
      && if a.stored && v.claimRef.Some? && v.claimRef.value !in c.pvcs then SetFree(v, d.pvs[name])
         else if a.stored && OwnerGoes(c, v, a) && v.labels != map[] then SetFreeAndLocked(v, d.pvs[name])
         else d.pvs[name] == v
  {
    if c.pvs[name].claimRef.Some? { MountedIff(c, c.pvs[name].claimRef.value); }
  }

  /** The old claim is deleted, the new one created - unless the label map is nil or the create fails. */
  lemma ReuseOnClaim(c: Cluster, key: ClaimKey, claim: Claim, name: string, a: Answers, k: ClaimKey)
    requires key !in c.pvcs && claim.selects == Some(name) && name in c.pvs
    ensures var v, d := c.pvs[name], ComponentPass(c, key, claim, a);
      && (k in d.pvcs <==>
            || (k in c.pvcs && !(OwnerGoes(c, v, a) && v.claimRef == Some(k)))
            || (k == key && a.done && !(OwnerGoes(c, v, a) && v.labels == map[])))
      && (k in d.pvcs ==> d.pvcs[k] == if k == key then claim else c.pvcs[k])
  {
    if c.pvs[name].claimRef.Some? { MountedIff(c, c.pvs[name].claimRef.value); }
  }

  /** A claim that asks for no volume is just created; one that is there, or whose volume is missing, changes nothing. */
  lemma PlainClaim(c: Cluster, key: ClaimKey, claim: Claim, a: Answers)
    ensures key in c.pvcs || (claim.selects.Some? && claim.selects.value !in c.pvs) ==> ComponentPass(c, key, claim, a) == c
    ensures key !in c.pvcs && claim.selects.None? ==>
      ComponentPass(c, key, claim, a) == c.(pvcs := if a.done then c.pvcs[key := claim] else c.pvcs)
  {
  }

  // ---- a delete request ----

  /** A granted request puts the claim's namespace and name on the volume and takes the claim away; no other changes. */
  lemma RequestMeans(c: Cluster, key: ClaimKey, pick: Option<string>, a: Answers)
    requires Picks(c, key, pick)
    ensures var d := DeleteClaim(c, key, pick, a);
      if key in c.pvcs && !(a.listed && Mounted(c, key)) && a.stored then
        && d.pvs.Keys == c.pvs.Keys && (forall n :: n in c.pvs && pick != Some(n) ==> d.pvs[n] == c.pvs[n])
        && (pick.Some? ==>
              && Has(d.pvs[pick.value].labels, CleanIfPVCGone, key.ns + "-" + key.name)
              && SameLabelsBut(c.pvs[pick.value].labels, d.pvs[pick.value].labels, {CleanIfPVCGone})
              && SameDisk(c.pvs[pick.value], d.pvs[pick.value]) && d.pvs[pick.value].claimRef == c.pvs[pick.value].claimRef)
        && d.pvcs == if a.done then c.pvcs - {key} else c.pvcs
      else d == c
  {
    MountedIff(c, key);
  }
}
