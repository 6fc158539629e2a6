/**
 What Kalm's calls write, whatever runs beside them: every update, new claim and removal of any interleaving, said in
 the fields of the objects as they are stored at that moment.
 */
module VolumeWrites {
  import opened Base
  import opened Volumes
  import opened VolumeMeaning
  import opened VolumeCalls
  import opened VolumeSafety
  import opened VolumeReference

  // ---- the kinds of write ----

  /** The labels of some claim of Kalm's were put on the volume, and the lock taken off. */
  ghost predicate DescribedBySome(name: string, v: Volume, v': Volume) {
    exists claim: Claim :: Has(claim.labels, Managed, "true") && Described(name, v, v', claim)
  }

  /** The clean request names the claim the volume refers to; nothing else has changed. */
  ghost predicate RequestAdded(v: Volume, v': Volume, key: ClaimKey) {
    && v.claimRef == Some(key) && v'.claimRef == v.claimRef && SameDisk(v, v')
    && Has(v'.labels, CleanIfPVCGone, key.ns + "-" + key.name) && SameLabelsBut(v.labels, v'.labels, {CleanIfPVCGone})
  }

  /** Taken over from a claim nobody can reach. */
  ghost predicate TakenOver(name: string, v: Volume, v': Volume) {
    MayAdopt(v) && ClaimIsForeign(name, v) && SetFree(v, v')
  }

  /** Set free for a claim that asks for it; under the lock only if it is one to be kept. */
  ghost predicate Released(v: Volume, v': Volume) {
    v.claimRef.Some? && (SetFree(v, v') || (v.retain && SetFreeAndLocked(v, v')))
  }

  predicate AllManaged(snap: map<string, Stored>) {
    forall n :: n in snap ==> Has(snap[n].vol.labels, Managed, "true")
  }

  /** What a party is about to write, by how far it has got. */
  ghost predicate Intends(l: Local) {
    match l
    case Pending(name, base, vol, Finish) => DescribedBySome(name, base.vol, vol)
    case Pending(name, base, vol, ToOrphanClaim(snap)) =>
      TakenOver(name, base.vol, vol) && MayAdopt(vol) && AllManaged(snap)
    case Pending(name, base, vol, ToCreate(_, claim)) => claim.selects == Some(name) && Released(base.vol, vol)
    case Pending(name, base, vol, ToDelete(key)) => RequestAdded(base.vol, vol, key)
    case Listed(snap) => AllManaged(snap)
    case Judged(snap, name) => AllManaged(snap) && name in snap
    case OrphanClaimNext(name, vol, snap) => MayAdopt(vol) && !ClaimIsForeign(name, vol) && AllManaged(snap)
    case Wants(_, claim, name, _) => claim.selects == Some(name)
    case OwnerUnused(_, claim, name, base) => claim.selects == Some(name) && base.vol.claimRef.Some? && base.vol.retain
    case _ => true
  }

  /** The change an update makes from one stored volume to the next, by what the party does after it. */
  ghost predicate WritesBetween(l: Local, name: string, v: Volume, v': Volume) {
    l.Pending? && l.name == name && match l.after
      case Finish => DescribedBySome(name, v, v')
      case ToOrphanClaim(_) => TakenOver(name, v, v')
      case ToCreate(_, claim) => claim.selects == Some(name) && Released(v, v')
      case ToDelete(key) => RequestAdded(v, v', key)
  }

  lemma PvIntends(w: World, c: Call)
    requires Enabled(w, c) && OfPv(c) && Intends(At(w, c.p))
    ensures Intends(At(Next(w, c), c.p))
  {
    match c
    case AdoptListed(p, name) => AdoptIntends(name, At(w, p).snap[name], At(w, p).snap);
    case GetItsClaim(p) =>
      var l := At(w, p);
      var key := l.base.vol.claimRef.value;
      if key in w.pvcs {
        if IsManaged(w.pvcs[key].labels) {
          assert Described(l.name, l.base.vol, Adorned(l.name, l.base.vol, w.pvcs[key]), w.pvcs[key]);
        }
      } else if Adoptable(l.base.vol) {
        AdoptIntends(l.name, l.base, map[]);
      }
    case _ =>
  }

  lemma AdoptIntends(name: string, st: Stored, snap: map<string, Stored>)
    requires Adoptable(st.vol) && AllManaged(snap)
    ensures Intends(AdoptNext(name, st, snap))
  {
  }

  lemma ComponentIntends(w: World, c: Call)
    requires Enabled(w, c) && OfComponent(c) && Intends(At(w, c.p))
    ensures Intends(At(Next(w, c), c.p))
  {
  }

  lemma HandlerIntends(w: World, c: Call)
    requires Enabled(w, c) && OfHandler(c)
    ensures Intends(At(Next(w, c), c.p))
  {
  }

  lemma OtherIntends(w: World, c: Call, p: nat)
    requires Enabled(w, c) && !OfPv(c) && !OfComponent(c) && !OfHandler(c) && Intends(At(w, p))
    ensures Intends(At(Next(w, c), p))
  {
  }

  lemma {:induction false} AlwaysIntends(ws: seq<World>, calls: seq<Call>, i: nat, p: nat)
    requires IsRun(ws, calls) && Fresh(ws[0]) && i <= |calls|
    ensures Intends(At(ws[i], p))
  {
    if i > 0 {
      AlwaysIntends(ws, calls, i - 1, p);
      assert StepAt(ws, calls, i - 1);
      var w, c := ws[i - 1], calls[i - 1];
      if OfPv(c) {
        if c.p == p { PvIntends(w, c); }
      } else if OfComponent(c) {
        if c.p == p { ComponentIntends(w, c); }
      } else if OfHandler(c) {
        if c.p == p { HandlerIntends(w, c); }
      } else {
        OtherIntends(w, c, p);
      }
    }
  }

  // ---- what is written ----

  /**
   In every interleaving an update changes one volume at most, and that as it was read. Over it the PV controller
   writes the description by a managed claim, or takes it over from a foreign one when nobody else has marked or locked
   it; the component controller releases the volume its claim asks for; the handler adds a clean request for the claim.
   */
  lemma UpdatesMean(ws: seq<World>, calls: seq<Call>, i: nat, name: string)
    requires IsRun(ws, calls) && Fresh(ws[0]) && i < |calls| && calls[i].Update?
    ensures ws[i + 1].pvcs == ws[i].pvcs && ws[i + 1].pvs.Keys == ws[i].pvs.Keys
    ensures name in ws[i].pvs && ws[i + 1].pvs[name] != ws[i].pvs[name] ==>
      WritesBetween(At(ws[i], calls[i].p), name, ws[i].pvs[name].vol, ws[i + 1].pvs[name].vol)
  {
    assert StepAt(ws, calls, i);
    AlwaysIntends(ws, calls, i, calls[i].p);
    InvHolds(ws, calls, i);
    var l := At(ws[i], calls[i].p);
    assert LocalOk(ws[i], l) && Copy(ws[i], l.name, l.base);
  }

  lemma OrphanClaimMeans(name: string, v: Volume)
    ensures OrphanKey(name) == OwnClaim(name) && SelectsIt(name, v, OrphanClaim(name, v))
  {
  }

  lemma ComesFromStored(w: World, c: Call, p: nat)
    requires Enabled(w, c) && At(Next(w, c), p).OrphanClaimNext? && At(w, p) != At(Next(w, c), p)
    ensures var l := At(Next(w, c), p);
      || (exists st: Stored :: Holds(At(w, p), l.name, st) && st.vol == l.vol)
      || (l.name in Next(w, c).pvs && Next(w, c).pvs[l.name].vol == l.vol)
  {
    match c
    case AdoptListed(q, name) => assert p == q ==> Holds(At(w, p), name, At(w, p).snap[name]);
    case GetItsClaim(q) => assert p == q ==> Holds(At(w, p), At(w, p).name, At(w, p).base);
    case _ =>
  }

  /** The volume a party is about to make a claim for was stored just so: a refused update ends its adoption. */
  lemma {:induction false} AdoptedWasStored(ws: seq<World>, calls: seq<Call>, i: nat, p: nat) returns (then_: nat)
    requires IsRun(ws, calls) && Fresh(ws[0]) && i <= |calls| && At(ws[i], p).OrphanClaimNext?
    ensures var l := At(ws[i], p); then_ <= i && l.name in ws[then_].pvs && ws[then_].pvs[l.name].vol == l.vol
  {
    assert StepAt(ws, calls, i - 1);
    var w, c, l := ws[i - 1], calls[i - 1], At(ws[i], p);
    if At(w, p) == l {
      then_ := AdoptedWasStored(ws, calls, i - 1, p);
    } else {
      ComesFromStored(w, c, p);
      if l.name in ws[i].pvs && ws[i].pvs[l.name].vol == l.vol {
        then_ := i;
      } else {
        var st: Stored :| Holds(At(w, p), l.name, st) && st.vol == l.vol;
        then_ := CopyWasStored(ws, calls, i - 1, p, l.name, st);
      }
    }
  }

  /** The claim is the own one of a volume that is stored at this moment and may be adopted as it is. */
  ghost predicate ClaimsStored(ws: seq<World>, t: int, name: string, key: ClaimKey, claim: Claim) {
    && 0 <= t < |ws| && name in ws[t].pvs && key == OwnClaim(name) && SelectsIt(name, ws[t].pvs[name].vol, claim)
    && MayAdopt(ws[t].pvs[name].vol) && !ClaimIsForeign(name, ws[t].pvs[name].vol)
  }

  ghost predicate ClaimsStoredBy(ws: seq<World>, i: int, key: ClaimKey, claim: Claim) {
    exists t, name :: t <= i && ClaimsStored(ws, t, name, key, claim)
  }

  /**
   The PV controller takes no claim away and makes none but the own claim of a volume that once was stored managed,
   with no clean request, no other party's lock and no foreign claim.
   */
  lemma NewClaimsMean(ws: seq<World>, calls: seq<Call>, i: nat, key: ClaimKey)
    requires IsRun(ws, calls) && Fresh(ws[0]) && i < |calls| && OfPv(calls[i])
    ensures key in ws[i].pvcs ==> key in ws[i + 1].pvcs && ws[i + 1].pvcs[key] == ws[i].pvcs[key]
    ensures key in ws[i + 1].pvcs && key !in ws[i].pvcs ==>
      ClaimsStoredBy(ws, i, key, ws[i + 1].pvcs[key])
  {
    assert StepAt(ws, calls, i);
    AlwaysIntends(ws, calls, i, calls[i].p);
    if calls[i].CreateOrphanClaim? && key !in ws[i].pvcs && key in ws[i + 1].pvcs {
      var l := At(ws[i], calls[i].p);
      OrphanClaimMeans(l.name, l.vol);
      var t := AdoptedWasStored(ws, calls, i, calls[i].p);
      assert ClaimsStored(ws, t, l.name, key, ws[i + 1].pvcs[key]);
    }
  }

  /** Kalm removes a volume only by a delete, having read it with Kalm's label and a clean request for its claim. */
  lemma RemovalsMean(ws: seq<World>, calls: seq<Call>, i: nat, name: string)
    requires IsRun(ws, calls) && Fresh(ws[0]) && i < |calls| && calls[i] != Reclaim(name)
    requires name in ws[i].pvs && name !in ws[i + 1].pvs
    ensures calls[i].Delete? && At(ws[i], calls[i].p).Judged? && At(ws[i], calls[i].p).name == name
    ensures name in At(ws[i], calls[i].p).snap
    ensures var v := At(ws[i], calls[i].p).snap[name].vol;
      && Has(v.labels, Managed, "true") && v.claimRef.Some?
      && Has(v.labels, CleanIfPVCGone, v.claimRef.value.ns + "-" + v.claimRef.value.name)
  {
    assert StepAt(ws, calls, i);
    AlwaysIntends(ws, calls, i, calls[i].p);
    DeletionsAreJustified(ws, calls, i);
  }
}
