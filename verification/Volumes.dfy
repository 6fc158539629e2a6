/**
 Persistent volumes (PVs) and persistent volume claims (PVCs) as three parts of Kalm see them: the PV
 controller, the component controller's "re-use a volume" path and the API's delete handler.
 The three never talk to each other; they leave labels on the volume and read its claim reference.
 */
module Volumes {
  import opened Base

  /** The label keys the protocol uses; every other key is irrelevant to it. */
  datatype Label = Managed | CleanIfPVCGone | PVLocker | PVName | ComponentKey | NamespaceKey | OtherLabel(key: string)

  type Labels = map<Label, string>

  const KALM_SYSTEM := "kalm-system"
  const CONTROLLER_KALM_PV := "controller-kalm-pv"
  const CONTROLLER_COMPONENT := "controller-component"

  datatype ClaimKey = ClaimKey(ns: string, name: string)

  datatype Volume = Volume(
    labels: Labels,
    claimRef: Option<ClaimKey>,
    retain: bool,
    capacity: nat,
    storageClass: string)

  datatype Claim = Claim(labels: Labels, selects: Option<string>, size: nat, storageClass: Option<string>)

  /** A pod and, volume by volume, the claim that volume mounts (if it mounts one). */
  datatype Pod = Pod(ns: string, vols: seq<Option<string>>)

  datatype Cluster = Cluster(
    pvs: map<string, Volume>,
    pvcs: map<ClaimKey, Claim>,
    pods: seq<Pod>,
    namespaces: set<string>)

  /** Reading a Go map: a missing key reads as the empty string. */
  function Value(labels: Labels, key: Label): string {
    if key in labels then labels[key] else ""
  }

  predicate IsManaged(labels: Labels) {
    Value(labels, Managed) == "true"
  }

  /** The value the delete handler writes, and the PV controller expects, under the clean label. */
  function CleanMark(key: ClaimKey): string {
    key.ns + "-" + key.name
  }

  predicate Mounts(pod: Pod, key: ClaimKey) {
    pod.ns == key.ns && Some(key.name) in pod.vols
  }

  predicate InUse(pods: seq<Pod>, key: ClaimKey) {
    exists pod :: pod in pods && Mounts(pod, key)
  }

  // ---- what the three parties do to one volume ----

  /** A volume made available again: no claim, and no pending clean request. */
  function Cleared(v: Volume): Volume {
    v.(claimRef := None, labels := v.labels - {CleanIfPVCGone})
  }

  /** A volume freed for re-use, under the component controller's lock. */
  function FreedUnderLock(v: Volume): Volume {
    var c := Cleared(v);
    c.(labels := c.labels[PVLocker := CONTROLLER_COMPONENT])
  }

  /** A volume that goes away once its claim does. */
  function Marked(v: Volume, key: ClaimKey): Volume {
    v.(labels := v.labels[CleanIfPVCGone := CleanMark(key)])
  }

  /** A bound volume carries its claim's descriptive labels and its own name, and no lock. */
  function Adorned(name: string, v: Volume, claim: Claim): Volume {
    v.(labels := v.labels[Managed := "true"]
         [ComponentKey := Value(claim.labels, ComponentKey)]
         [NamespaceKey := Value(claim.labels, NamespaceKey)]
         [PVName := name] - {PVLocker})
  }

  predicate LockedByOther(v: Volume) {
    var locker := Value(v.labels, PVLocker);
    locker != "" && locker != CONTROLLER_KALM_PV
  }

  /** An orphan the PV controller is willing to look after. */
  predicate Adoptable(v: Volume) {
    IsManaged(v.labels) && Value(v.labels, CleanIfPVCGone) == "" && !LockedByOther(v)
  }

  function OrphanKey(name: string): ClaimKey {
    ClaimKey(KALM_SYSTEM, "pvc-orphan-" + name)
  }

  function OrphanClaim(name: string, v: Volume): Claim {
    Claim(map[Managed := "true",
              ComponentKey := Value(v.labels, ComponentKey),
              NamespaceKey := Value(v.labels, NamespaceKey)],
          Some(name), v.capacity, Some(v.storageClass))
  }

  /** The stale claim of an adopted volume is dropped only when both its namespace and its name differ. */
  predicate DropsClaim(name: string, v: Volume) {
    && v.claimRef.Some?
    && v.claimRef.value.ns != OrphanKey(name).ns
    && v.claimRef.value.name != OrphanKey(name).name
  }

  lemma OrphanKeyInjective()
    ensures forall m, n {:trigger OrphanKey(m), OrphanKey(n)} :: OrphanKey(m) == OrphanKey(n) ==> m == n
  {
    forall m, n | OrphanKey(m) == OrphanKey(n) ensures m == n {
      var p := "pvc-orphan-";
      assert (p + m)[|p|..] == m && (p + n)[|p|..] == n;
    }
  }

  // ---- whole operations, each as one atomic step on the cluster ----

  /**
   Which answers an operation got for the calls whose failure it does not report. A failed list of pods reads as no
   pods at all, a failed update of a volume to re-use is passed over; a failed create ends the operation.
   */
  datatype Answers = Answers(listed: bool, stored: bool, done: bool)

  const ALL_ANSWERED := Answers(true, true, true)

  /** The delete phase removes a managed volume whose clean label names the claim it had, once that claim is gone. */
  predicate Doomed(c: Cluster, v: Volume) {
    && IsManaged(v.labels)
    && CleanIfPVCGone in v.labels
    && v.claimRef.Some?
    && v.labels[CleanIfPVCGone] == CleanMark(v.claimRef.value)
    && v.claimRef.value !in c.pvcs
  }

  function DeleteDoomed(c: Cluster, names: set<string>): Cluster {
    c.(pvs := map n | n in c.pvs && !(n in names && Doomed(c, c.pvs[n])) :: c.pvs[n])
  }

  /** A managed volume with no claim, or with a claim in a namespace that no longer exists. */
  predicate Orphaned(c: Cluster, v: Volume) {
    IsManaged(v.labels) && (v.claimRef.None? || v.claimRef.value.ns !in c.namespaces)
  }

  function AdoptOne(c: Cluster, name: string, v: Volume): Cluster {
    if !Adoptable(v) then c else
    Cluster(
      c.pvs[name := AdoptedVolume(name, v)],
      if OrphanKey(name) in c.pvcs then c.pvcs else c.pvcs[OrphanKey(name) := OrphanClaim(name, v)],
      c.pods, c.namespaces)
  }

  function AdoptedVolume(name: string, v: Volume): Volume {
    if Adoptable(v) && DropsClaim(name, v) then Cleared(v) else v
  }

  function AdoptedVolumes(pvs: map<string, Volume>, names: set<string>): map<string, Volume> {
    map n | n in pvs :: if n in names then AdoptedVolume(n, pvs[n]) else pvs[n]
  }

  /** The adoptable volumes among the named ones whose claim is not there yet. */
  function Unclaimed(c: Cluster, names: set<string>): set<string> {
    set n | n in c.pvs && n in names && Adoptable(c.pvs[n]) && OrphanKey(n) !in c.pvcs
  }

  function ClaimsFor(pvs: map<string, Volume>, names: set<string>): map<ClaimKey, Claim>
    requires names <= pvs.Keys
  {
    OrphanKeyInjective();
    map n | n in names :: OrphanKey(n) := OrphanClaim(n, pvs[n])
  }

  /** The claims adoption creates: one for each adopted volume whose claim does not exist yet. */
  function OrphanClaims(c: Cluster, names: set<string>): map<ClaimKey, Claim> {
    ClaimsFor(c.pvs, Unclaimed(c, names))
  }

  /** Adopting a set of volumes, whatever the order. */
  function Adopt(c: Cluster, names: set<string>): Cluster {
    Cluster(AdoptedVolumes(c.pvs, names), c.pvcs + OrphanClaims(c, names), c.pods, c.namespaces)
  }

  function Orphans(c: Cluster): set<string> {
    set n | n in c.pvs && Orphaned(c, c.pvs[n])
  }

  /** One pass of the PV controller after some claim changed. */
  function ClaimChangePass(c: Cluster): Cluster {
    Adopt(DeleteDoomed(c, c.pvs.Keys), Orphans(c))
  }

  /** Adoption that got as far as the claim reference: the claim was not created. */
  function HalfAdopt(c: Cluster, name: string): Cluster {
    if name in c.pvs then c.(pvs := c.pvs[name := AdoptedVolume(name, c.pvs[name])]) else c
  }

  /** How far a pass got before a call failed. */
  datatype Stop = Deleting(names: set<string>) | Adopting(names: set<string>, half: Option<string>)

  predicate IsStop(c: Cluster, stop: Stop) {
    stop.Adopting? ==> stop.names <= Orphans(c) && (stop.half.Some? ==> stop.half.value in Orphans(c) - stop.names)
  }

  function StoppedPass(c: Cluster, stop: Stop): Cluster {
    match stop
    case Deleting(names) => DeleteDoomed(c, names)
    case Adopting(names, half) =>
      var adopted := Adopt(DeleteDoomed(c, c.pvs.Keys), names);
      if half.Some? then HalfAdopt(adopted, half.value) else adopted
  }

  /** One pass of the PV controller for one volume. */
  function VolumePass(c: Cluster, name: string): Cluster {
    if name !in c.pvs || c.pvs[name].claimRef.None? then c else
    var v := c.pvs[name];
    var key := v.claimRef.value;
    if key !in c.pvcs then AdoptOne(c, name, v)
    else if !IsManaged(c.pvcs[key].labels) then c
    else c.(pvs := c.pvs[name := Adorned(name, v, c.pvcs[key])])
  }

  /** The same pass when a call failed after the claim reference was dropped. */
  function StoppedVolumePass(c: Cluster, name: string): Cluster {
    if name !in c.pvs || c.pvs[name].claimRef.None? || c.pvs[name].claimRef.value in c.pvcs then c
    else HalfAdopt(c, name)
  }

  /** How the re-use path ends: the caller creates its claim, gives up with an error, or the process panics. */
  datatype Reuse = Proceed | Failed | Panicked

  /** Freeing a volume so that another claim can bind it. */
  function FreeForReuse(c: Cluster, name: string, a: Answers): (Cluster, Reuse) {
    if name !in c.pvs then (c, Failed) else
    var v := c.pvs[name];
    if v.claimRef.None? then (c, Proceed) else
    var owner := v.claimRef.value;
    if owner !in c.pvcs then (if a.stored then c.(pvs := c.pvs[name := Cleared(v)]) else c, Proceed)
    else if !v.retain || LooksUsed(c, owner, a) then (c, Proceed)
    else
      var c1 := c.(pvcs := c.pvcs - {owner});
      // the label map of an unlabelled object is nil, and writing to it panics
      if v.labels == map[] then (c1, Panicked)
      else (if a.stored then c1.(pvs := c1.pvs[name := FreedUnderLock(v)]) else c1, Proceed)
  }

  predicate LooksUsed(c: Cluster, key: ClaimKey, a: Answers) {
    a.listed && InUse(c.pods, key)
  }

  /** The claim branch of a component's volume preparation. */
  function ComponentPass(c: Cluster, key: ClaimKey, claim: Claim, a: Answers): Cluster {
    if key in c.pvcs then c else
    var (c1, how) := if claim.selects.None? then (c, Proceed) else FreeForReuse(c, claim.selects.value, a);
    if how == Proceed && a.done then c1.(pvcs := c1.pvcs[key := claim]) else c1
  }

  /** The volume the delete handler marks: any one of those claimed by the key, or none when there is none. */
  predicate Picks(c: Cluster, key: ClaimKey, pick: Option<string>) {
    match pick
    case Some(n) => n in c.pvs && c.pvs[n].claimRef == Some(key)
    case None => forall n :: n in c.pvs ==> c.pvs[n].claimRef != Some(key)
  }

  /** The delete handler grants a request only for an existing claim that it sees no pod mount. */
  predicate Deletable(c: Cluster, key: ClaimKey, a: Answers) {
    key in c.pvcs && !LooksUsed(c, key, a)
  }

  /** When the mark or the delete itself fails, the claim stays, and the volume may be marked already. */
  function DeleteClaim(c: Cluster, key: ClaimKey, pick: Option<string>, a: Answers): Cluster
    requires Picks(c, key, pick)
  {
    if !Deletable(c, key, a) || !a.stored then c else
    c.(pvs := if pick.Some? then c.pvs[pick.value := Marked(c.pvs[pick.value], key)] else c.pvs,
       pvcs := if a.done then c.pvcs - {key} else c.pvcs)
  }
}
