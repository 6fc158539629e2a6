/**
 Whose volume does a delete remove? The delete names no revision, so what counts is the claim the stored volume
 refers to. This module says which steps change that reference, and so when a deletion is justified after all.
 */
module VolumeReference {
  import opened Base
  import opened Volumes
  import opened VolumeCalls
  import opened VolumeSafety

  // ---- the story of a deletion ----

  lemma {:induction false} HistGrows(ws: seq<World>, calls: seq<Call>, j: nat, i: nat)
    requires IsRun(ws, calls) && j <= i <= |calls|
    ensures ws[j].hist <= ws[i].hist
    decreases i
  {
    if j < i {
      HistGrows(ws, calls, j, i - 1);
      NotedIsSo(ws, calls, i - 1);
    }
  }

  lemma GrantWasGiven(ws: seq<World>, calls: seq<Call>, i: nat, key: ClaimKey) returns (asked: nat)
    requires IsRun(ws, calls) && ws[0].hist == [] && i <= |calls| && Granted(ws[i].hist, key)
    ensures asked < i && GrantedAt(ws, calls, asked, key)
  {
    var e := if FoundUnused(key, true) in ws[i].hist then FoundUnused(key, true) else FoundUnused(key, false);
    var k :| 0 <= k < |ws[i].hist| && ws[i].hist[k] == e;
    asked := EventsAreTrue(ws, calls, i, k);
  }

  /** At this moment the delete handler went on with deleting the claim, having seen no pod use it. */
  ghost predicate GrantedAt(ws: seq<World>, calls: seq<Call>, j: int, key: ClaimKey) {
    && 0 <= j < |calls| < |ws| && calls[j].CheckPods? && At(ws[j], calls[j].p) == ClaimFound(key)
    && (calls[j].listed ==> !InUse(ws[j].pods, key))
  }

  /**
   Every deletion has a story: a request to delete the claim of the copy judged was granted, later the PV controller
   looked that claim up and it was gone, and only then the volume was deleted.
   */
  lemma DeletionStory(ws: seq<World>, calls: seq<Call>, i: nat) returns (asked: nat, gone: nat)
    requires IsRun(ws, calls) && Fresh(ws[0]) && i < |calls| && calls[i].Delete?
    ensures Enabled(ws[i], calls[i])
    ensures var judged := At(ws[i], calls[i].p).snap[At(ws[i], calls[i].p).name];
      && judged.vol.claimRef.Some? && asked < gone < i
      && GrantedAt(ws, calls, asked, judged.vol.claimRef.value)
      && calls[gone].LookUpMarked? && judged.vol.claimRef.value !in ws[gone].pvcs
  {
    DeletionsAreJustified(ws, calls, i);
    var key := At(ws[i], calls[i].p).snap[At(ws[i], calls[i].p).name].vol.claimRef.value;
    var k :| 0 <= k < |ws[i].hist| && ws[i].hist[k] == SeenGone(key) && Granted(ws[i].hist[..k], key);
    gone := EventsAreTrue(ws, calls, i, k);
    HistGrows(ws, calls, gone, i);
    assert ws[gone].hist == ws[i].hist[..k];
    asked := GrantWasGiven(ws, calls, gone, key);
  }

  // ---- which steps change the reference ----

  /** A party's update frees the volume: the stored reference is dropped. */
  ghost predicate Frees(w: World, c: Call, name: string) {
    && c.Update? && At(w, c.p).Pending? && At(w, c.p).name == name && Accepted(w, c.p)
    && At(w, c.p).vol.claimRef.None?
  }

  /** The volume of that name goes away. */
  ghost predicate Removes(w: World, c: Call, name: string) {
    c == Reclaim(name) || (c.Delete? && At(w, c.p).Judged? && At(w, c.p).name == name)
  }

  /** A pending update keeps the reference of the copy it is based on, or drops it. */
  predicate KeepsOrDrops(l: Local) {
    l.Pending? ==> l.vol.claimRef.None? || l.vol.claimRef == l.base.vol.claimRef
  }

  lemma StaysKeepOrDrop(w: World, c: Call, p: nat)
    requires Enabled(w, c) && KeepsOrDrops(At(w, p))
    ensures KeepsOrDrops(At(Next(w, c), p))
  {
  }

  lemma {:induction false} AlwaysKeepOrDrop(ws: seq<World>, calls: seq<Call>, i: nat, p: nat)
    requires IsRun(ws, calls) && Fresh(ws[0]) && i <= |calls|
    ensures KeepsOrDrops(At(ws[i], p))
  {
    if i > 0 {
      AlwaysKeepOrDrop(ws, calls, i - 1, p);
      assert StepAt(ws, calls, i - 1);
      StaysKeepOrDrop(ws[i - 1], calls[i - 1], p);
    }
  }

  /** No party writes a new reference: one that is there stays, unless it is dropped or the volume removed. */
  lemma ReferenceKept(w: World, c: Call, name: string)
    requires Inv(w) && Enabled(w, c) && name in w.pvs && w.pvs[name].vol.claimRef.Some?
    requires c.Update? ==> KeepsOrDrops(At(w, c.p))
    requires !Frees(w, c, name) && !Removes(w, c, name)
    ensures name in Next(w, c).pvs && Next(w, c).pvs[name].vol.claimRef == w.pvs[name].vol.claimRef
  {
    if c.Update? {
      assert LocalOk(w, At(w, c.p));
      assert Accepted(w, c.p) ==> Copy(w, At(w, c.p).name, At(w, c.p).base);
    }
  }

  ghost predicate LetGo(ws: seq<World>, calls: seq<Call>, m: int, name: string) {
    0 <= m < |calls| < |ws| && (Frees(ws[m], calls[m], name) || Removes(ws[m], calls[m], name))
  }

  lemma {:induction false} ReferenceStays(ws: seq<World>, calls: seq<Call>, j: nat, i: nat, name: string)
    requires IsRun(ws, calls) && Fresh(ws[0]) && j <= i <= |calls|
    requires name in ws[j].pvs && ws[j].pvs[name].vol.claimRef.Some?
    requires forall m :: j <= m < i ==> !LetGo(ws, calls, m, name)
    ensures name in ws[i].pvs && ws[i].pvs[name].vol.claimRef == ws[j].pvs[name].vol.claimRef
    decreases i
  {
    if j < i {
      ReferenceStays(ws, calls, j, i - 1, name);
      assert StepAt(ws, calls, i - 1) && !LetGo(ws, calls, i - 1, name);
      InvHolds(ws, calls, i - 1);
      if calls[i - 1].Update? {
        AlwaysKeepOrDrop(ws, calls, i - 1, calls[i - 1].p);
      }
      ReferenceKept(ws[i - 1], calls[i - 1], name);
    }
  }

  // ---- copies are genuine ----

  predicate Holds(l: Local, name: string, st: Stored) {
    match l
    case Pending(n, base, _, after) =>
      (n == name && base == st) || (after.ToOrphanClaim? && name in after.snap && after.snap[name] == st)
    case Listed(snap) => name in snap && snap[name] == st
    case Judged(snap, _) => name in snap && snap[name] == st
    case OrphanClaimNext(_, _, snap) => name in snap && snap[name] == st
    case GotVolume(n, base) => n == name && base == st
    case Wants(_, _, n, base) => n == name && base == st
    case OwnerUnused(_, _, n, base) => n == name && base == st
    case _ => false
  }

  lemma HeldBefore(w: World, c: Call, p: nat, name: string, st: Stored)
    requires Enabled(w, c) && Holds(At(Next(w, c), p), name, st)
    ensures Holds(At(w, p), name, st) || (name in w.pvs && w.pvs[name] == st)
  {
  }

  /** Every copy a party holds was once the stored object. */
  lemma {:induction false} CopyWasStored(ws: seq<World>, calls: seq<Call>, i: nat, p: nat, name: string, st: Stored)
    returns (taken: nat)
    requires IsRun(ws, calls) && Fresh(ws[0]) && i <= |calls| && Holds(At(ws[i], p), name, st)
    ensures taken <= i && name in ws[taken].pvs && ws[taken].pvs[name] == st
  {
    assert StepAt(ws, calls, i - 1);
    HeldBefore(ws[i - 1], calls[i - 1], p, name, st);
    if name in ws[i - 1].pvs && ws[i - 1].pvs[name] == st {
      taken := i - 1;
    } else {
      taken := CopyWasStored(ws, calls, i - 1, p, name, st);
    }
  }

  /**
   What a delete removes. If the volume then stored still refers to the claim of the copy judged, its own claim's
   deletion was granted and the claim seen gone, whatever the revision. It refers to anything else only if, since
   the copy was taken, a party freed the volume or it was removed and made anew.
   */
  lemma RemovedVolumesClaim(ws: seq<World>, calls: seq<Call>, i: nat) returns (taken: nat)
    requires IsRun(ws, calls) && Fresh(ws[0]) && i < |calls| && calls[i].Delete?
    ensures Enabled(ws[i], calls[i]) && taken <= i
    ensures var (name, judged) := (At(ws[i], calls[i].p).name, At(ws[i], calls[i].p).snap[At(ws[i], calls[i].p).name]);
      && name in ws[taken].pvs && ws[taken].pvs[name] == judged && judged.vol.claimRef.Some?
      && (name in ws[i].pvs && ws[i].pvs[name].vol.claimRef == judged.vol.claimRef ==>
            GrantedThenGone(ws[i].hist, ws[i].pvs[name].vol.claimRef.value))
      && ((forall m :: taken <= m < i ==> !LetGo(ws, calls, m, name)) ==>
            name in ws[i].pvs && ws[i].pvs[name].vol.claimRef == judged.vol.claimRef)
  {
    DeletionsAreJustified(ws, calls, i);
    var l := At(ws[i], calls[i].p);
    taken := CopyWasStored(ws, calls, i, calls[i].p, l.name, l.snap[l.name]);
    if forall m :: taken <= m < i ==> !LetGo(ws, calls, m, l.name) {
      ReferenceStays(ws, calls, taken, i, l.name);
    }
  }
}
