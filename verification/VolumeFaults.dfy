/** What failed calls cost: a stopped pass loses nothing, but failures that are passed over have consequences. */
module VolumeFaults {
  import opened Base
  import opened Volumes
  import opened VolumePasses

  // ---- a stopped pass of the PV controller ----

  ghost predicate SameOrphans(c: Cluster, d: Cluster) {
    forall n :: n in d.pvs ==> (n in Orphans(d) <==> n in Orphans(c))
  }

  lemma DeletingCompletes(c: Cluster, names: set<string>)
    ensures ClaimChangePass(DeleteDoomed(c, names)) == ClaimChangePass(c)
  {
    var d, x := DeleteDoomed(c, names), DeleteDoomed(c, c.pvs.Keys);
    assert DeleteDoomed(d, d.pvs.Keys).pvs == x.pvs;
    assert SameOrphans(c, d);
    AdoptsAlike(x, Orphans(d), Orphans(c));
  }

  lemma AdoptsAlike(c: Cluster, names: set<string>, others: set<string>)
    requires forall n :: n in c.pvs ==> (n in names <==> n in others)
    ensures Adopt(c, names) == Adopt(c, others)
  {
    assert AdoptedVolumes(c.pvs, names) == AdoptedVolumes(c.pvs, others);
    assert Unclaimed(c, names) == Unclaimed(c, others);
  }

  /** A volume after none, half or all of its adoption. */
  predicate Underway(name: string, v: Volume, v': Volume) {
    v' == v || v' == AdoptedVolume(name, v)
  }

  lemma UnderwayIsAdoptedAlike(name: string, v: Volume, v': Volume)
    requires Underway(name, v, v')
    ensures AdoptedVolume(name, v') == AdoptedVolume(name, v) && (Adoptable(v') <==> Adoptable(v))
    ensures OrphanClaim(name, v') == OrphanClaim(name, v)
  {
  }

  /** Some of the volumes are underway, and some claims are there already, made for volumes to adopt. */
  ghost predicate Started(x: Cluster, d: Cluster, names: set<string>) {
    && d.pvs.Keys == x.pvs.Keys && d.pods == x.pods && d.namespaces == x.namespaces
    && (forall n :: n in x.pvs ==> StartedAt(x, d, names, n))
    && exists made: set<string> :: Made(x, d, names, made)
  }

  ghost predicate StartedAt(x: Cluster, d: Cluster, names: set<string>, n: string)
    requires n in x.pvs
  {
    n in d.pvs && (d.pvs[n] == x.pvs[n] || (n in names && Underway(n, x.pvs[n], d.pvs[n])))
  }

  ghost predicate Made(x: Cluster, d: Cluster, names: set<string>, made: set<string>) {
    made <= Unclaimed(x, names) && d.pvcs == x.pvcs + ClaimsFor(x.pvs, made)
  }

  lemma StartedIsAdoptedAlike(x: Cluster, d: Cluster, names: set<string>, n: string)
    requires Started(x, d, names) && n in x.pvs
    ensures n in d.pvs && OrphanClaim(n, d.pvs[n]) == OrphanClaim(n, x.pvs[n])
    ensures AdoptedVolume(n, d.pvs[n]) == AdoptedVolume(n, x.pvs[n]) && (Adoptable(d.pvs[n]) <==> Adoptable(x.pvs[n]))
    ensures n !in names ==> d.pvs[n] == x.pvs[n]
  {
    assert StartedAt(x, d, names, n);
    UnderwayIsAdoptedAlike(n, x.pvs[n], d.pvs[n]);
  }

  lemma StartedVolumes(x: Cluster, d: Cluster, names: set<string>)
    requires Started(x, d, names)
    ensures AdoptedVolumes(d.pvs, names) == AdoptedVolumes(x.pvs, names)
  {
    forall n | n in x.pvs
      ensures AdoptedVolume(n, d.pvs[n]) == AdoptedVolume(n, x.pvs[n]) && (n !in names ==> d.pvs[n] == x.pvs[n])
    {
      StartedIsAdoptedAlike(x, d, names, n);
    }
  }

  lemma ClaimForIff(pvs: map<string, Volume>, made: set<string>, n: string)
    requires made <= pvs.Keys
    ensures OrphanKey(n) in ClaimsFor(pvs, made) <==> n in made
  {
    OrphanKeyInjective();
  }

  lemma StartedUnclaimed(x: Cluster, d: Cluster, names: set<string>, made: set<string>)
    requires Started(x, d, names) && Made(x, d, names, made)
    ensures Unclaimed(d, names) == Unclaimed(x, names) - made
  {
    forall n | n in x.pvs
      ensures n in d.pvs && (Adoptable(d.pvs[n]) <==> Adoptable(x.pvs[n]))
      ensures OrphanKey(n) in d.pvcs <==> OrphanKey(n) in x.pvcs || n in made
    {
      StartedIsAdoptedAlike(x, d, names, n);
      ClaimForIff(x.pvs, made, n);
    }
  }

  lemma StartedClaims(x: Cluster, d: Cluster, names: set<string>, made: set<string>)
    requires Started(x, d, names) && Made(x, d, names, made)
    ensures d.pvcs + OrphanClaims(d, names) == x.pvcs + OrphanClaims(x, names)
  {
    StartedUnclaimed(x, d, names, made);
    var all := Unclaimed(x, names);
    forall n | n in all ensures n in d.pvs && OrphanClaim(n, d.pvs[n]) == OrphanClaim(n, x.pvs[n]) {
      StartedIsAdoptedAlike(x, d, names, n);
    }
    ClaimsInTwoParts(x.pvs, d.pvs, all, made);
    OverlayTwice(x.pvcs, ClaimsFor(x.pvs, made), ClaimsFor(d.pvs, all - made));
  }

  lemma OverlayTwice<K, V>(m: map<K, V>, a: map<K, V>, b: map<K, V>)
    ensures (m + a) + b == m + (a + b)
  {
  }

  lemma ClaimsInTwoParts(pvs: map<string, Volume>, later: map<string, Volume>, all: set<string>, made: set<string>)
    requires made <= all && all <= pvs.Keys && all <= later.Keys
    requires forall n :: n in all ==> OrphanClaim(n, later[n]) == OrphanClaim(n, pvs[n])
    ensures ClaimsFor(pvs, made) + ClaimsFor(later, all - made) == ClaimsFor(pvs, all)
  {
    OrphanKeyInjective();
  }

  lemma AdoptionGoesOn(x: Cluster, d: Cluster, names: set<string>)
    requires Started(x, d, names)
    ensures Adopt(d, names) == Adopt(x, names)
  {
    var made: set<string> :| Made(x, d, names, made);
    StartedVolumes(x, d, names);
    StartedClaims(x, d, names, made);
  }

  lemma StoppedHasStarted(c: Cluster, names: set<string>, half: Option<string>)
    requires IsStop(c, Adopting(names, half))
    ensures Started(DeleteDoomed(c, c.pvs.Keys), StoppedPass(c, Adopting(names, half)), Orphans(c))
  {
    var x := DeleteDoomed(c, c.pvs.Keys);
    var d := if half.Some? then HalfAdopt(Adopt(x, names), half.value) else Adopt(x, names);
    forall n | n in x.pvs ensures StartedAt(x, d, Orphans(c), n) {
      StoppedHasStartedAt(c, x, names, half, n);
    }
    StoppedHasMade(x, d, names, Orphans(c));
  }

  lemma StoppedHasStartedAt(c: Cluster, x: Cluster, names: set<string>, half: Option<string>, n: string)
    requires IsStop(c, Adopting(names, half)) && n in x.pvs
    ensures StartedAt(x, if half.Some? then HalfAdopt(Adopt(x, names), half.value) else Adopt(x, names), Orphans(c), n)
  {
  }

  lemma StoppedHasMade(x: Cluster, d: Cluster, names: set<string>, all: set<string>)
    requires names <= all && d.pvcs == Adopt(x, names).pvcs
    ensures Made(x, d, all, Unclaimed(x, names))
  {
  }

  /** Nothing more is deleted, and the same volumes are orphans. */
  lemma NothingLeftToDelete(c: Cluster, d: Cluster)
    requires Started(DeleteDoomed(c, c.pvs.Keys), d, Orphans(c))
    ensures DeleteDoomed(d, d.pvs.Keys).pvs == d.pvs && SameOrphans(c, d)
  {
    var x := DeleteDoomed(c, c.pvs.Keys);
    forall n | n in d.pvs ensures !Doomed(d, d.pvs[n]) && (n in Orphans(d) <==> n in Orphans(c)) {
      StaysOrphan(c, d, n);
    }
  }

  lemma StaysOrphan(c: Cluster, d: Cluster, n: string)
    requires Started(DeleteDoomed(c, c.pvs.Keys), d, Orphans(c)) && n in d.pvs
    ensures !Doomed(d, d.pvs[n]) && (n in Orphans(d) <==> n in Orphans(c))
  {
    var x := DeleteDoomed(c, c.pvs.Keys);
    var made: set<string> :| Made(x, d, Orphans(c), made);
    assert StartedAt(x, d, Orphans(c), n) && x.pvs[n] == c.pvs[n] && !Doomed(c, c.pvs[n]);
    assert forall k :: k in c.pvcs ==> k in d.pvcs;
  }

  /** The pass that follows a stopped one reaches what one undisturbed pass would have reached. */
  lemma NextPassCompletes(c: Cluster, stop: Stop)
    requires IsStop(c, stop)
    ensures ClaimChangePass(StoppedPass(c, stop)) == ClaimChangePass(c)
  {
    match stop
    case Deleting(names) => DeletingCompletes(c, names);
    case Adopting(names, half) =>
      var x, d := DeleteDoomed(c, c.pvs.Keys), StoppedPass(c, stop);
      StoppedHasStarted(c, names, half);
      NothingLeftToDelete(c, d);
      AdoptsAlike(d, Orphans(d), Orphans(c));
      AdoptionGoesOn(x, d, Orphans(c));
  }

  // ---- failures that are passed over ----

  /** The volume asked for is claimed, with the policy under which its claim may be deleted. */
  predicate RefersTo(c: Cluster, claim: Claim, key: ClaimKey) {
    && claim.selects.Some? && claim.selects.value in c.pvs
    && c.pvs[claim.selects.value].claimRef == Some(key) && c.pvs[claim.selects.value].retain
  }

  /**
   Preparing a claim deletes exactly the old claim of the volume asked for, unless a pod is seen to use it. So a
   claim in use is deleted if and only if the pods could not be listed.
   */
  lemma ReuseDeletesClaimIff(c: Cluster, key: ClaimKey, claim: Claim, a: Answers, old_: ClaimKey)
    requires key !in c.pvcs && old_ in c.pvcs
    ensures old_ !in ComponentPass(c, key, claim, a).pvcs <==> RefersTo(c, claim, old_) && !LooksUsed(c, old_, a)
    ensures RefersTo(c, claim, old_) && InUse(c.pods, old_) ==>
      (old_ !in ComponentPass(c, key, claim, a).pvcs <==> !a.listed)
  {
  }

  /** The volume can be had: it is free, or its claim is gone or may go. */
  predicate Available(c: Cluster, v: Volume, a: Answers) {
    match v.claimRef
    case None => true
    case Some(owner) => a.stored && (owner !in c.pvcs || (v.retain && !LooksUsed(c, owner, a)))
  }

  /**
   Once the claim is created for a volume it asks for, the volume is free for it if and only if the volume could be
   had; the claim is created all the same when it could not, or when the volume's update was lost.
   */
  lemma ClaimMadeForFreeVolumeIff(c: Cluster, key: ClaimKey, claim: Claim, name: string, a: Answers)
    requires key !in c.pvcs && claim.selects == Some(name) && key in ComponentPass(c, key, claim, a).pvcs
    ensures name in c.pvs && name in ComponentPass(c, key, claim, a).pvs
    ensures ComponentPass(c, key, claim, a).pvs[name].claimRef.None? <==> Available(c, c.pvs[name], a)
  {
  }

  /** A request deletes the claim if and only if no pod is seen to use it and the last calls are answered. */
  lemma RequestDeletesClaimIff(c: Cluster, key: ClaimKey, pick: Option<string>, a: Answers)
    requires Picks(c, key, pick) && key in c.pvcs
    ensures key !in DeleteClaim(c, key, pick, a).pvcs <==> !LooksUsed(c, key, a) && a.stored && a.done
  {
  }

  /**
   A request whose last call failed leaves the claim and the marked volume. Whoever removes the claim later, a
   managed volume then goes with it.
   */
  lemma FailedRequestDooms(c: Cluster, key: ClaimKey, name: string, a: Answers)
    requires Picks(c, key, Some(name)) && IsManaged(c.pvs[name].labels)
    requires Deletable(c, key, a) && a.stored && !a.done
    ensures var d := DeleteClaim(c, key, Some(name), a);
      && key in d.pvcs && name in d.pvs
      && name !in ClaimChangePass(d.(pvcs := d.pvcs - {key})).pvs
  {
    var d := DeleteClaim(c, key, Some(name), a);
    PassOnVolume(d.(pvcs := d.pvcs - {key}), name);
  }
}
