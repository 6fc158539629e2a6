/** Deletion safety of the call-by-call machine, for every interleaving. */
module VolumeSafety {
  import opened Base
  import opened Volumes
  import opened VolumeCalls

  // ---- invariant ----

  /** The delete handler granted the deletion of this claim: it saw no pod use it. */
  predicate Granted(hist: seq<Event>, key: ClaimKey) {
    FoundUnused(key, true) in hist || FoundUnused(key, false) in hist
  }

  /** It did so, and after that the PV controller saw the claim gone. */
  ghost predicate GrantedThenGone(hist: seq<Event>, key: ClaimKey) {
    exists j :: 0 <= j < |hist| && hist[j] == SeenGone(key) && Granted(hist[..j], key)
  }

  /** A clean mark names the volume's own claim, and the delete handler granted that claim's deletion. */
  predicate Evidence(hist: seq<Event>, v: Volume) {
    CleanIfPVCGone in v.labels ==>
      MarkedForItsClaim(v) && Granted(hist, v.claimRef.value)
  }

  /** A remembered copy: genuine, and equal to the stored object as long as the revisions agree. */
  predicate Copy(w: World, name: string, st: Stored) {
    && st.rev <= w.rev
    && Evidence(w.hist, st.vol)
    && (name in w.pvs && w.pvs[name].rev == st.rev ==> w.pvs[name] == st)
  }

  ghost predicate Copies(w: World, snap: map<string, Stored>) {
    forall n :: n in snap ==> Copy(w, n, snap[n])
  }

  ghost predicate AfterOk(w: World, after: After) {
    after.ToOrphanClaim? ==> Copies(w, after.snap)
  }

  ghost predicate LocalOk(w: World, l: Local) {
    match l
    case Pending(name, base, vol, after) => Copy(w, name, base) && Evidence(w.hist, vol) && AfterOk(w, after)
    case Listed(snap) => Copies(w, snap)
    case Judged(snap, name) =>
      && Copies(w, snap) && name in snap && MarkedForItsClaim(snap[name].vol)
      && GrantedThenGone(w.hist, snap[name].vol.claimRef.value)
    case OrphanClaimNext(_, _, snap) => Copies(w, snap)
    case GotVolume(name, base) => Copy(w, name, base)
    case Wants(_, _, name, base) => Copy(w, name, base)
    case OwnerUnused(_, _, name, base) => Copy(w, name, base)
    case ClaimUnused(key) => Granted(w.hist, key)
    case _ => true
  }

  ghost predicate Inv(w: World) {
    && (forall n :: n in w.pvs ==> w.pvs[n].rev <= w.rev && Evidence(w.hist, w.pvs[n].vol))
    && (forall p :: p in w.procs ==> LocalOk(w, w.procs[p]))
  }

  // ---- growth: what every step leaves true of copies already held ----

  ghost predicate Grows(w: World, w': World) {
    && w.hist <= w'.hist && w.rev <= w'.rev
    && (forall n :: n in w'.pvs ==> (n in w.pvs && w'.pvs[n] == w.pvs[n]) || w'.pvs[n].rev > w.rev)
  }

  lemma GoneGrows(w: World, w': World, key: ClaimKey)
    requires Grows(w, w') && GrantedThenGone(w.hist, key)
    ensures GrantedThenGone(w'.hist, key)
  {
    var j :| 0 <= j < |w.hist| && w.hist[j] == SeenGone(key) && Granted(w.hist[..j], key);
    assert w'.hist[..j] == w.hist[..j] && w'.hist[j] == SeenGone(key);
  }

  lemma EvidenceGrows(w: World, w': World, v: Volume)
    requires Grows(w, w') && Evidence(w.hist, v)
    ensures Evidence(w'.hist, v)
  {
  }

  lemma CopyGrows(w: World, w': World, name: string, st: Stored)
    requires Grows(w, w') && Copy(w, name, st)
    ensures Copy(w', name, st)
  {
  }

  lemma CopiesGrow(w: World, w': World, snap: map<string, Stored>)
    requires Grows(w, w') && Copies(w, snap)
    ensures Copies(w', snap)
  {
    forall n | n in snap ensures Copy(w', n, snap[n]) { CopyGrows(w, w', n, snap[n]); }
  }

  lemma LocalGrows(w: World, w': World, l: Local)
    requires Grows(w, w') && LocalOk(w, l)
    ensures LocalOk(w', l)
  {
    match l
    case Pending(name, base, vol, after) =>
      CopyGrows(w, w', name, base);
      if after.ToOrphanClaim? { CopiesGrow(w, w', after.snap); }
    case Listed(snap) => CopiesGrow(w, w', snap);
    case Judged(snap, name) =>
      CopiesGrow(w, w', snap);
      GoneGrows(w, w', snap[name].vol.claimRef.value);
    case OrphanClaimNext(_, _, snap) => CopiesGrow(w, w', snap);
    case GotVolume(name, base) => CopyGrows(w, w', name, base);
    case Wants(_, _, name, base) => CopyGrows(w, w', name, base);
    case OwnerUnused(_, _, name, base) => CopyGrows(w, w', name, base);
    case _ =>
  }

  /** The skeleton of every preservation proof: one party moved. */
  lemma InvKept(w: World, w': World, p: nat)
    requires Inv(w) && Grows(w, w')
    requires w'.procs == w.procs || (w'.procs.Keys == w.procs.Keys + {p} && LocalOk(w', w'.procs[p]) && forall q :: q in w.procs && q != p ==> w'.procs[q] == w.procs[q])
    requires forall n :: n in w'.pvs ==> (n in w.pvs && w'.pvs[n] == w.pvs[n]) || (w'.pvs[n].rev <= w'.rev && Evidence(w'.hist, w'.pvs[n].vol))
    ensures Inv(w')
  {
    forall n | n in w'.pvs ensures w'.pvs[n].rev <= w'.rev && Evidence(w'.hist, w'.pvs[n].vol) {
      if n in w.pvs && w'.pvs[n] == w.pvs[n] { EvidenceGrows(w, w', w.pvs[n].vol); }
    }
    forall q | q in w'.procs ensures LocalOk(w', w'.procs[q]) {
      if q in w.procs && w'.procs[q] == w.procs[q] { LocalGrows(w, w', w.procs[q]); }
    }
  }

  // ---- every step keeps the invariant ----

  lemma CopyTaken(w: World, name: string)
    requires Inv(w) && name in w.pvs
    ensures Copy(w, name, w.pvs[name])
  {
  }

  lemma ReadKeepsInv(w: World, p: nat, l: Local)
    requires Inv(w) && LocalOk(w, l)
    ensures Inv(Goto(w, p, l))
  {
    LocalGrows(w, Goto(w, p, l), l);
    InvKept(w, Goto(w, p, l), p);
  }

  lemma StoreKeepsInv(w: World, name: string, v: Volume)
    requires Inv(w) && Evidence(w.hist, v)
    ensures Inv(Store(w, name, v))
  {
    InvKept(w, Store(w, name, v), 0);
  }

  lemma AdoptNextOk(w: World, name: string, st: Stored, snap: map<string, Stored>)
    requires Copy(w, name, st) && Copies(w, snap)
    ensures LocalOk(w, AdoptNext(name, st, snap))
  {
  }

  lemma LookUpKeepsInv(w: World, p: nat, name: string)
    requires Inv(w) && Enabled(w, LookUpMarked(p, name))
    ensures Inv(Next(w, LookUpMarked(p, name)))
  {
    var w' := Next(w, LookUpMarked(p, name));
    var snap := At(w, p).snap;
    var key := snap[name].vol.claimRef.value;
    assert Copy(w, name, snap[name]);
    assert w'.hist[..|w.hist|] == w.hist && w'.hist[|w.hist|] == SeenGone(key);
    CopiesGrow(w, w', snap);
    InvKept(w, w', p);
  }

  lemma DeleteKeepsInv(w: World, p: nat)
    requires Inv(w) && Enabled(w, Delete(p))
    ensures Inv(Next(w, Delete(p)))
  {
    var w' := Next(w, Delete(p));
    var l := At(w, p);
    assert LocalOk(w, l) && Copy(w, l.name, l.snap[l.name]);
    CopiesGrow(w, w', l.snap);
    InvKept(w, w', p);
  }

  lemma OrphanClaimKeepsInv(w: World, p: nat)
    requires Inv(w) && Enabled(w, CreateOrphanClaim(p))
    ensures Inv(Next(w, CreateOrphanClaim(p)))
  {
    CopiesGrow(w, Next(w, CreateOrphanClaim(p)), At(w, p).snap);
    InvKept(w, Next(w, CreateOrphanClaim(p)), p);
  }

  lemma ListKeepsInv(w: World, p: nat)
    requires Inv(w) && Enabled(w, ListManaged(p))
    ensures Inv(Next(w, ListManaged(p)))
  {
    var snap := map n | n in w.pvs && IsManaged(w.pvs[n].vol.labels) :: w.pvs[n];
    forall n | n in snap ensures Copy(w, n, snap[n]) { CopyTaken(w, n); }
    ReadKeepsInv(w, p, Listed(snap));
  }

  lemma PvKeepsInv(w: World, c: Call)
    requires Inv(w) && Enabled(w, c) && OfPv(c)
    ensures Inv(Next(w, c))
  {
    match c
    case ListManaged(p) => ListKeepsInv(w, p);
    case LookUpMarked(p, name) => LookUpKeepsInv(w, p, name);
    case Delete(p) => DeleteKeepsInv(w, p);
    case AdoptListed(p, name) =>
      AdoptNextOk(w, name, At(w, p).snap[name], At(w, p).snap);
      ReadKeepsInv(w, p, AdoptNext(name, At(w, p).snap[name], At(w, p).snap));
    case CreateOrphanClaim(p) => OrphanClaimKeepsInv(w, p);
    case GetVolume(p, name) =>
      CopyTaken(w, name);
      ReadKeepsInv(w, p, GotVolume(name, w.pvs[name]));
    case GetItsClaim(p) =>
      AdoptNextOk(w, At(w, p).name, At(w, p).base, map[]);
      ReadKeepsInv(w, p, At(Next(w, c), p));
  }

  lemma ComponentKeepsInv(w: World, c: Call)
    requires Inv(w) && Enabled(w, c) && OfComponent(c)
    ensures Inv(Next(w, c))
  {
    match c
    case WantPlain(p, key, claim) => ReadKeepsInv(w, p, Creating(key, claim));
    case GetWanted(p, key, claim, name) =>
      CopyTaken(w, name);
      ReadKeepsInv(w, p, Wants(key, claim, name, w.pvs[name]));
    case GetOwner(p, _) => ReadKeepsInv(w, p, At(Next(w, c), p));
    case DeleteOwner(p) => OwnerDeletedKeepsInv(w, p);
    case CreateClaim(p) => InvKept(w, Next(w, c), p);
  }

  lemma OwnerDeletedKeepsInv(w: World, p: nat)
    requires Inv(w) && Enabled(w, DeleteOwner(p))
    ensures Inv(Next(w, DeleteOwner(p)))
  {
    CopyGrows(w, Next(w, DeleteOwner(p)), At(w, p).name, At(w, p).base);
    InvKept(w, Next(w, DeleteOwner(p)), p);
  }

  lemma PodsCheckedKeepsInv(w: World, p: nat, listed: bool)
    requires Inv(w) && Enabled(w, CheckPods(p, listed))
    ensures Inv(Next(w, CheckPods(p, listed)))
  {
    var w' := Next(w, CheckPods(p, listed));
    assert w'.hist[|w.hist|] == FoundUnused(At(w, p).key, listed);
    InvKept(w, w', p);
  }

  lemma HandlerKeepsInv(w: World, c: Call)
    requires Inv(w) && Enabled(w, c) && OfHandler(c)
    ensures Inv(Next(w, c))
  {
    match c
    case GetClaim(p, key) => ReadKeepsInv(w, p, ClaimFound(key));
    case CheckPods(p, listed) => PodsCheckedKeepsInv(w, p, listed);
    case PickVolume(p, pick) =>
      if pick.Some? { CopyTaken(w, pick.value); }
      ReadKeepsInv(w, p, At(Next(w, c), p));
    case DeleteItsClaim(p) => InvKept(w, Next(w, c), p);
  }

  lemma UpdateKeepsInv(w: World, p: nat)
    requires Inv(w) && Enabled(w, Update(p))
    ensures Inv(Next(w, Update(p)))
  {
    var l := At(w, p);
    assert LocalOk(w, l);
    var accepted := Accepted(w, p);
    ReadKeepsInv(w, p, AfterUpdate(l, accepted));
    if accepted {
      StoreKeepsInv(Goto(w, p, AfterUpdate(l, true)), l.name, l.vol);
    }
  }

  lemma OtherKeepsInv(w: World, c: Call)
    requires Inv(w) && Enabled(w, c) && !OfPv(c) && !OfComponent(c) && !OfHandler(c)
    ensures Inv(Next(w, c))
  {
    match c
    case Update(p) => UpdateKeepsInv(w, p);
    case LoseUpdate(p) => ReadKeepsInv(w, p, AfterUpdate(At(w, p), false));
    case GiveUp(p) => ReadKeepsInv(w, p, Idle);
    case Bind(name, key) => StoreKeepsInv(w, name, w.pvs[name].vol.(claimRef := Some(key)));
    case Touch(name) => StoreKeepsInv(w, name, w.pvs[name].vol);
    case Provision(name, vol) => StoreKeepsInv(w, name, vol);
    case Reclaim(_) => InvKept(w, Next(w, c), 0);
    case PutClaim(_, _) => InvKept(w, Next(w, c), 0);
    case DropClaim(_) => InvKept(w, Next(w, c), 0);
    case SetPods(_) => InvKept(w, Next(w, c), 0);
  }

  // ---- runs ----

  ghost predicate IsRun(ws: seq<World>, calls: seq<Call>) {
    && |ws| == |calls| + 1
    && forall i :: 0 <= i < |calls| ==> StepAt(ws, calls, i)
  }

  ghost predicate StepAt(ws: seq<World>, calls: seq<Call>, i: int)
    requires 0 <= i < |calls| < |ws|
  {
    Enabled(ws[i], calls[i]) && ws[i + 1] == Next(ws[i], calls[i])
  }

  /** Nobody has started, nothing is marked, nothing has been observed. */
  ghost predicate Fresh(w: World) {
    && w.procs == map[] && w.hist == []
    && forall n :: n in w.pvs ==> w.pvs[n].rev <= w.rev && CleanIfPVCGone !in w.pvs[n].vol.labels
  }

  lemma {:induction false} InvHolds(ws: seq<World>, calls: seq<Call>, i: nat)
    requires IsRun(ws, calls) && Fresh(ws[0]) && i <= |calls|
    ensures Inv(ws[i])
  {
    if i > 0 {
      InvHolds(ws, calls, i - 1);
      assert StepAt(ws, calls, i - 1);
      var w, c := ws[i - 1], calls[i - 1];
      if OfPv(c) { PvKeepsInv(w, c); }
      else if OfComponent(c) { ComponentKeepsInv(w, c); }
      else if OfHandler(c) { HandlerKeepsInv(w, c); }
      else { OtherKeepsInv(w, c); }
    }
  }

  /**
   In every interleaving: when Kalm deletes a volume, the copy it judged was marked for the claim it refers to,
   the delete handler had earlier granted that claim's deletion, and the PV controller had since seen it gone.
   The object removed is the one judged if and only if it was not written in between; the delete itself does
   not check that.
   */
  lemma DeletionsAreJustified(ws: seq<World>, calls: seq<Call>, i: nat)
    requires IsRun(ws, calls) && Fresh(ws[0]) && i < |calls| && calls[i].Delete?
    ensures Enabled(ws[i], calls[i])
    ensures var l := At(ws[i], calls[i].p);
      && MarkedForItsClaim(l.snap[l.name].vol)
      && l.snap[l.name].vol.claimRef.Some? && CleanIfPVCGone in l.snap[l.name].vol.labels
      && l.snap[l.name].vol.labels[CleanIfPVCGone] ==
           l.snap[l.name].vol.claimRef.value.ns + "-" + l.snap[l.name].vol.claimRef.value.name
      && GrantedThenGone(ws[i].hist, l.snap[l.name].vol.claimRef.value)
      && (l.name in ws[i].pvs ==>
            (ws[i].pvs[l.name] == l.snap[l.name] <==> ws[i].pvs[l.name].rev == l.snap[l.name].rev))
  {
    InvHolds(ws, calls, i);
    assert StepAt(ws, calls, i);
    var l := At(ws[i], calls[i].p);
    assert LocalOk(ws[i], l) && Copy(ws[i], l.name, l.snap[l.name]);
  }

  /** Every mark in the store, at any moment of any run, is evidence of a request for the volume's own claim. */
  lemma MarksAreEvidence(ws: seq<World>, calls: seq<Call>, i: nat, name: string)
    requires IsRun(ws, calls) && Fresh(ws[0]) && i <= |calls| && name in ws[i].pvs
    ensures CleanIfPVCGone in ws[i].pvs[name].vol.labels ==>
      MarkedForItsClaim(ws[i].pvs[name].vol) && Granted(ws[i].hist, ws[i].pvs[name].vol.claimRef.value)
  {
    InvHolds(ws, calls, i);
  }

  /** What the observer noted down was so at that moment. */
  ghost predicate Observed(ws: seq<World>, calls: seq<Call>, j: int, e: Event) {
    0 <= j < |calls| < |ws| && match e
      case FoundUnused(key, listed) =>
        calls[j].CheckPods? && calls[j].listed == listed && At(ws[j], calls[j].p) == ClaimFound(key)
        && (listed ==> !InUse(ws[j].pods, key))
      case SeenGone(key) => calls[j].LookUpMarked? && key !in ws[j].pvcs
      case Deleted(name, _, removed) =>
        calls[j].Delete? && removed == if name in ws[j].pvs then Some(ws[j].pvs[name]) else None
  }

  lemma NotedIsSo(ws: seq<World>, calls: seq<Call>, i: nat)
    requires IsRun(ws, calls) && i < |calls|
    ensures ws[i + 1].hist == ws[i].hist
      || (|ws[i + 1].hist| == |ws[i].hist| + 1 && ws[i].hist <= ws[i + 1].hist
          && Observed(ws, calls, i, ws[i + 1].hist[|ws[i].hist|]))
  {
    assert StepAt(ws, calls, i);
  }

  /** The events were noted in their order, each at a moment when it was so. */
  lemma {:induction false} EventsAreTrue(ws: seq<World>, calls: seq<Call>, i: nat, k: nat) returns (j: nat)
    requires IsRun(ws, calls) && ws[0].hist == [] && i <= |calls| && k < |ws[i].hist|
    ensures j < i && Observed(ws, calls, j, ws[i].hist[k]) && |ws[j].hist| == k
  {
    NotedIsSo(ws, calls, i - 1);
    if k < |ws[i - 1].hist| {
      j := EventsAreTrue(ws, calls, i - 1, k);
    } else {
      j := i - 1;
    }
  }
}
