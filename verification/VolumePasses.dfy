/** What one pass of the PV controller achieves, and that a second one has nothing left to do. */
module VolumePasses {
  import opened Base
  import opened Volumes

  /** No claim, or a claim in a vanished namespace; nobody else's lock and no pending clean request. */
  predicate LeftAlone(c: Cluster, v: Volume) {
    Orphaned(c, v) && Adoptable(v)
  }

  /** A clean mark is never the empty string, and adoption skips volumes with a non-empty one. */
  lemma DoomedIsNotAdoptable(c: Cluster, v: Volume)
    ensures Doomed(c, v) ==> !Adoptable(v)
  {
    if Doomed(c, v) {
      assert |CleanMark(v.claimRef.value)| > 0;
    }
  }

  lemma PassOnVolume(c: Cluster, name: string)
    ensures var d := ClaimChangePass(c);
      && (name in d.pvs <==> name in c.pvs && !Doomed(c, c.pvs[name]))
      && (name in d.pvs ==>
            d.pvs[name] == if Orphaned(c, c.pvs[name]) then AdoptedVolume(name, c.pvs[name]) else c.pvs[name])
  {
  }

  lemma PassOnClaim(c: Cluster, key: ClaimKey)
    ensures key in c.pvcs ==> key in ClaimChangePass(c).pvcs && ClaimChangePass(c).pvcs[key] == c.pvcs[key]
    ensures key in ClaimChangePass(c).pvcs && key !in c.pvcs ==>
      exists n :: n in c.pvs && LeftAlone(c, c.pvs[n]) && key == OrphanKey(n)
  {
    OrphanKeyInjective();
  }

  lemma PassCreatesClaim(c: Cluster, name: string)
    requires name in c.pvs && LeftAlone(c, c.pvs[name]) && OrphanKey(name) !in c.pvcs
    ensures OrphanKey(name) in ClaimChangePass(c).pvcs
    ensures ClaimChangePass(c).pvcs[OrphanKey(name)] == OrphanClaim(name, c.pvs[name])
  {
    OrphanKeyInjective();
    DoomedIsNotAdoptable(c, c.pvs[name]);
    assert name in DeleteDoomed(c, c.pvs.Keys).pvs && name in Orphans(c);
  }

  /**
   After an error-free pass every volume still left alone has a claim of its own in the system namespace.
   That claim selects exactly this volume if and only if no other claim already sat under its name.
   */
  lemma EveryOrphanHasItsClaim(c: Cluster, name: string)
    requires name in ClaimChangePass(c).pvs
    requires LeftAlone(ClaimChangePass(c), ClaimChangePass(c).pvs[name])
    ensures OrphanKey(name) in ClaimChangePass(c).pvcs
    ensures ClaimChangePass(c).pvcs[OrphanKey(name)].selects == Some(name) <==>
            (OrphanKey(name) in c.pvcs ==> c.pvcs[OrphanKey(name)].selects == Some(name))
  {
    PassOnVolume(c, name);
    assert LeftAlone(c, c.pvs[name]) by {
      SurvivorWasLeftAlone(c, name);
    }
    if OrphanKey(name) in c.pvcs {
      PassOnClaim(c, OrphanKey(name));
    } else {
      PassCreatesClaim(c, name);
    }
  }

  lemma SurvivorWasLeftAlone(c: Cluster, name: string)
    requires name in ClaimChangePass(c).pvs
    requires LeftAlone(ClaimChangePass(c), ClaimChangePass(c).pvs[name])
    ensures LeftAlone(c, c.pvs[name])
  {
    PassOnVolume(c, name);
  }

  /** Two claims made by the pass for two volumes never coincide. */
  lemma OrphanClaimsAreSeparate(c: Cluster, m: string, n: string)
    requires m in c.pvs && n in c.pvs && LeftAlone(c, c.pvs[m]) && LeftAlone(c, c.pvs[n]) && m != n
    requires OrphanKey(m) !in c.pvcs && OrphanKey(n) !in c.pvcs
    ensures OrphanKey(m) != OrphanKey(n)
    ensures ClaimChangePass(c).pvcs[OrphanKey(m)].selects != ClaimChangePass(c).pvcs[OrphanKey(n)].selects
  {
    OrphanKeyInjective();
    PassCreatesClaim(c, m);
    PassCreatesClaim(c, n);
  }

  /**
   Adoption frees the volume for its new claim exactly when the old claim shared neither the system namespace
   nor the new claim's name: the two tests are joined by "and", so sharing one of them keeps the old reference.
   */
  lemma AdoptionFreesVolumeIff(c: Cluster, name: string)
    requires name in c.pvs && LeftAlone(c, c.pvs[name])
    ensures name in ClaimChangePass(c).pvs
    ensures ClaimChangePass(c).pvs[name].claimRef.None? <==>
      match c.pvs[name].claimRef
      case None => true
      case Some(k) => k.ns != KALM_SYSTEM && k.name != OrphanKey(name).name
  {
    PassOnVolume(c, name);
    DoomedIsNotAdoptable(c, c.pvs[name]);
  }

  /** A second pass changes nothing. */
  lemma PassIsIdempotent(c: Cluster)
    ensures ClaimChangePass(ClaimChangePass(c)) == ClaimChangePass(c)
  {
    SecondPassKeepsVolumes(c);
    SecondPassKeepsClaims(c);
  }

  lemma SecondPassKeepsVolumes(c: Cluster)
    ensures ClaimChangePass(ClaimChangePass(c)).pvs == ClaimChangePass(c).pvs
  {
    var d := ClaimChangePass(c);
    var e := ClaimChangePass(d);
    forall n ensures n in d.pvs <==> n in e.pvs
             ensures n in d.pvs && n in e.pvs ==> e.pvs[n] == d.pvs[n] {
      PassOnVolume(d, n);
      if n in d.pvs { SecondPassKeepsVolume(c, n); }
    }
  }

  lemma SecondPassKeepsClaims(c: Cluster)
    ensures ClaimChangePass(ClaimChangePass(c)).pvcs == ClaimChangePass(c).pvcs
  {
    var d := ClaimChangePass(c);
    forall k { SecondPassKeepsClaim(c, d, k); }
    SameMap(ClaimChangePass(d).pvcs, d.pvcs);
  }

  lemma SecondPassKeepsClaim(c: Cluster, d: Cluster, k: ClaimKey)
    requires d == ClaimChangePass(c)
    ensures k in d.pvcs <==> k in ClaimChangePass(d).pvcs
    ensures k in d.pvcs ==> ClaimChangePass(d).pvcs[k] == d.pvcs[k]
  {
    PassOnClaim(d, k);
    if k in ClaimChangePass(d).pvcs && k !in d.pvcs {
      var n :| n in d.pvs && LeftAlone(d, d.pvs[n]) && k == OrphanKey(n);
      EveryOrphanHasItsClaim(c, n);
      assert false;
    }
  }

  lemma SecondPassKeepsVolume(c: Cluster, name: string)
    requires name in ClaimChangePass(c).pvs
    ensures var d := ClaimChangePass(c);
      && !Doomed(d, d.pvs[name])
      && (AdoptedVolume(name, d.pvs[name]) == d.pvs[name] || !Orphaned(d, d.pvs[name]))
  {
    var d := ClaimChangePass(c);
    var v := c.pvs[name];
    PassOnVolume(c, name);
    if v.claimRef.Some? {
      PassOnClaim(c, v.claimRef.value);
    }
  }
}
