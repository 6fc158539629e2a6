/**
 The same three parties one API call at a time. Any number of passes and requests run at once and interleave
 freely; each remembers the copies it has read. An update carries the revision of the copy it was based on and
 is refused when the stored object has moved on. A delete carries no revision: it removes whatever is stored.
 Any call may also fail: the party gives up, except where it passes over the failure.
 */
module VolumeCalls {
  import opened Base
  import opened Volumes

  datatype Stored = Stored(rev: nat, vol: Volume)

  /** What a party does once its pending update has been answered. */
  datatype After = Finish | ToOrphanClaim(snap: map<string, Stored>) | ToCreate(key: ClaimKey, claim: Claim) | ToDelete(key: ClaimKey)

  /** How far one party has got, and what it has read so far. */
  datatype Local =
    | Idle
    | Pending(name: string, base: Stored, vol: Volume, after: After)
    // PV controller
    | Listed(snap: map<string, Stored>)
    | Judged(snap: map<string, Stored>, name: string)
    | OrphanClaimNext(name: string, vol: Volume, snap: map<string, Stored>)
    | GotVolume(name: string, base: Stored)
    // component controller
    | Wants(key: ClaimKey, claim: Claim, name: string, base: Stored)
    | OwnerUnused(key: ClaimKey, claim: Claim, name: string, base: Stored)
    | Creating(key: ClaimKey, claim: Claim)
    // delete handler
    | ClaimFound(key: ClaimKey)
    | ClaimUnused(key: ClaimKey)
    | ClaimNext(key: ClaimKey)

  /** What an observer notes down. */
  datatype Event =
    | FoundUnused(key: ClaimKey, listed: bool)  // the delete handler saw no pod use the claim; were the pods listed?
    | SeenGone(key: ClaimKey)  // the PV controller looked the claim up and it was not there
    | Deleted(name: string, judged: Stored, removed: Option<Stored>)

  datatype World = World(
    pvs: map<string, Stored>,
    pvcs: map<ClaimKey, Claim>,
    pods: seq<Pod>,
    rev: nat,
    procs: map<nat, Local>,
    hist: seq<Event>)

  datatype Call =
    // PV controller
    | ListManaged(p: nat)
    | LookUpMarked(p: nat, name: string)
    | Delete(p: nat)
    | AdoptListed(p: nat, name: string)
    | CreateOrphanClaim(p: nat)
    | GetVolume(p: nat, name: string)
    | GetItsClaim(p: nat)
    // component controller
    | WantPlain(p: nat, key: ClaimKey, claim: Claim)
    | GetWanted(p: nat, key: ClaimKey, claim: Claim, name: string)
    | GetOwner(p: nat, listed: bool)
    | DeleteOwner(p: nat)
    | CreateClaim(p: nat)
    // delete handler
    | GetClaim(p: nat, key: ClaimKey)
    | CheckPods(p: nat, listed: bool)
    | PickVolume(p: nat, pick: Option<string>)
    | DeleteItsClaim(p: nat)
    // any of them
    | Update(p: nat)
    | LoseUpdate(p: nat)
    | GiveUp(p: nat)
    // the environment
    | Bind(name: string, key: ClaimKey)
    | Touch(name: string)
    | Provision(name: string, vol: Volume)
    | Reclaim(name: string)
    | PutClaim(key: ClaimKey, claim: Claim)
    | DropClaim(key: ClaimKey)
    | SetPods(pods: seq<Pod>)

  function At(w: World, p: nat): Local {
    if p in w.procs then w.procs[p] else Idle
  }

  function Goto(w: World, p: nat, l: Local): World {
    w.(procs := w.procs[p := l])
  }

  function Store(w: World, name: string, v: Volume): World {
    w.(pvs := w.pvs[name := Stored(w.rev + 1, v)], rev := w.rev + 1)
  }

  /** The next thing to do for a volume about to be adopted: drop its stale claim, or go straight to its new claim. */
  function AdoptNext(name: string, st: Stored, snap: map<string, Stored>): Local {
    if DropsClaim(name, st.vol) then Pending(name, st, Cleared(st.vol), ToOrphanClaim(snap))
    else OrphanClaimNext(name, st.vol, snap)
  }

  function AfterUpdate(l: Local, accepted: bool): Local
    requires l.Pending?
  {
    match l.after
    case Finish => Idle
    case ToOrphanClaim(snap) => if accepted then OrphanClaimNext(l.name, l.vol, snap) else Idle
    // the component controller does not look at the outcome of its update
    case ToCreate(key, claim) => Creating(key, claim)
    case ToDelete(key) => if accepted then ClaimNext(key) else Idle
  }

  /** The marked volumes the delete phase looks at, judged by the copy it holds. */
  predicate MarkedForItsClaim(v: Volume) {
    && CleanIfPVCGone in v.labels && v.claimRef.Some?
    && v.labels[CleanIfPVCGone] == CleanMark(v.claimRef.value)
  }

  ghost predicate PicksAt(w: World, key: ClaimKey, pick: Option<string>) {
    match pick
    case Some(n) => n in w.pvs && w.pvs[n].vol.claimRef == Some(key)
    case None => forall n :: n in w.pvs ==> w.pvs[n].vol.claimRef != Some(key)
  }

  ghost predicate Enabled(w: World, c: Call) {
    match c
    case ListManaged(p) => At(w, p).Idle?
    case LookUpMarked(p, name) =>
      && At(w, p).Listed? && name in At(w, p).snap && MarkedForItsClaim(At(w, p).snap[name].vol)
      && At(w, p).snap[name].vol.claimRef.value !in w.pvcs
    case Delete(p) => At(w, p).Judged? && At(w, p).name in At(w, p).snap
    case AdoptListed(p, name) => At(w, p).Listed? && name in At(w, p).snap && Adoptable(At(w, p).snap[name].vol)
    case CreateOrphanClaim(p) => At(w, p).OrphanClaimNext?
    case GetVolume(p, name) => At(w, p).Idle? && name in w.pvs && w.pvs[name].vol.claimRef.Some?
    case GetItsClaim(p) => At(w, p).GotVolume? && At(w, p).base.vol.claimRef.Some?
    case WantPlain(p, key, claim) => At(w, p).Idle? && key !in w.pvcs && claim.selects.None?
    case GetWanted(p, key, claim, name) => At(w, p).Idle? && key !in w.pvcs && claim.selects == Some(name) && name in w.pvs
    case GetOwner(p, _) => At(w, p).Wants?
    case DeleteOwner(p) => At(w, p).OwnerUnused? && At(w, p).base.vol.claimRef.Some?
    case CreateClaim(p) => At(w, p).Creating?
    case GetClaim(p, key) => At(w, p).Idle? && key in w.pvcs
    case CheckPods(p, listed) => At(w, p).ClaimFound? && !(listed && InUse(w.pods, At(w, p).key))
    case PickVolume(p, pick) => At(w, p).ClaimUnused? && PicksAt(w, At(w, p).key, pick)
    case DeleteItsClaim(p) => At(w, p).ClaimNext?
    case Update(p) => At(w, p).Pending?
    case LoseUpdate(p) => At(w, p).Pending?
    case Bind(name, key) => name in w.pvs && w.pvs[name].vol.claimRef.None? && key in w.pvcs
    case Touch(name) => name in w.pvs
    case Provision(name, vol) => name !in w.pvs && CleanIfPVCGone !in vol.labels
    case _ => true
  }

  ghost function PvStep(w: World, c: Call): World
    requires Enabled(w, c)
  {
    match c
    case ListManaged(p) => Goto(w, p, Listed(map n | n in w.pvs && IsManaged(w.pvs[n].vol.labels) :: w.pvs[n]))
    case LookUpMarked(p, name) =>
      var snap := At(w, p).snap;
      Goto(w, p, Judged(snap, name)).(hist := w.hist + [SeenGone(snap[name].vol.claimRef.value)])
    case Delete(p) =>
      var (snap, name) := (At(w, p).snap, At(w, p).name);
      Goto(w, p, Listed(snap)).(
        pvs := w.pvs - {name},
        hist := w.hist + [Deleted(name, snap[name], if name in w.pvs then Some(w.pvs[name]) else None)])
    case AdoptListed(p, name) => Goto(w, p, AdoptNext(name, At(w, p).snap[name], At(w, p).snap))
    case CreateOrphanClaim(p) =>
      var l := At(w, p);
      var key := OrphanKey(l.name);
      Goto(w, p, Listed(l.snap)).(pvcs := if key in w.pvcs then w.pvcs else w.pvcs[key := OrphanClaim(l.name, l.vol)])
    case GetVolume(p, name) => Goto(w, p, GotVolume(name, w.pvs[name]))
    case GetItsClaim(p) =>
      var l := At(w, p);
      var key := l.base.vol.claimRef.value;
      Goto(w, p,
        if key in w.pvcs then
          if IsManaged(w.pvcs[key].labels) then Pending(l.name, l.base, Adorned(l.name, l.base.vol, w.pvcs[key]), Finish) else Idle
        else if Adoptable(l.base.vol) then AdoptNext(l.name, l.base, map[])
        else Idle)
    case _ => w
  }

  ghost function ComponentStep(w: World, c: Call): World
    requires Enabled(w, c)
  {
    match c
    case WantPlain(p, key, claim) => Goto(w, p, Creating(key, claim))
    case GetWanted(p, key, claim, name) => Goto(w, p, Wants(key, claim, name, w.pvs[name]))
    case GetOwner(p, listed) =>
      var l := At(w, p);
      Goto(w, p,
        if l.base.vol.claimRef.None? then Creating(l.key, l.claim)
        else if l.base.vol.claimRef.value !in w.pvcs then
          Pending(l.name, l.base, Cleared(l.base.vol), ToCreate(l.key, l.claim))
        else if l.base.vol.retain && !(listed && InUse(w.pods, l.base.vol.claimRef.value)) then
          OwnerUnused(l.key, l.claim, l.name, l.base)
        else Creating(l.key, l.claim))
    case DeleteOwner(p) =>
      var l := At(w, p);
      Goto(w, p,
        if l.base.vol.labels == map[] then Idle
        else Pending(l.name, l.base, FreedUnderLock(l.base.vol), ToCreate(l.key, l.claim)))
      .(pvcs := w.pvcs - {l.base.vol.claimRef.value})
    case CreateClaim(p) =>
      var l := At(w, p);
      Goto(w, p, Idle).(pvcs := if l.key in w.pvcs then w.pvcs else w.pvcs[l.key := l.claim])
    case _ => w
  }

  ghost function HandlerStep(w: World, c: Call): World
    requires Enabled(w, c)
  {
    match c
    case GetClaim(p, key) => Goto(w, p, ClaimFound(key))
    case CheckPods(p, listed) =>
      Goto(w, p, ClaimUnused(At(w, p).key)).(hist := w.hist + [FoundUnused(At(w, p).key, listed)])
    case PickVolume(p, pick) =>
      var key := At(w, p).key;
      Goto(w, p,
        if pick.None? then ClaimNext(key)
        else Pending(pick.value, w.pvs[pick.value], Marked(w.pvs[pick.value].vol, key), ToDelete(key)))
    case DeleteItsClaim(p) => Goto(w, p, Idle).(pvcs := w.pvcs - {At(w, p).key})
    case _ => w
  }

  /** An update is accepted only when the stored revision is still the one it was based on. */
  ghost predicate Accepted(w: World, p: nat)
    requires At(w, p).Pending?
  {
    At(w, p).name in w.pvs && w.pvs[At(w, p).name].rev == At(w, p).base.rev
  }

  ghost function OtherStep(w: World, c: Call): World
    requires Enabled(w, c)
  {
    match c
    case Update(p) =>
      var l := At(w, p);
      if Accepted(w, p) then Store(Goto(w, p, AfterUpdate(l, true)), l.name, l.vol)
      else Goto(w, p, AfterUpdate(l, false))
    case LoseUpdate(p) => Goto(w, p, AfterUpdate(At(w, p), false))
    case GiveUp(p) => Goto(w, p, Idle)
    case Bind(name, key) => Store(w, name, w.pvs[name].vol.(claimRef := Some(key)))
    case Touch(name) => Store(w, name, w.pvs[name].vol)
    case Provision(name, vol) => Store(w, name, vol)
    case Reclaim(name) => w.(pvs := w.pvs - {name})
    case PutClaim(key, claim) => w.(pvcs := w.pvcs[key := claim])
    case DropClaim(key) => w.(pvcs := w.pvcs - {key})
    case SetPods(pods) => w.(pods := pods)
    case _ => w
  }

  predicate OfPv(c: Call) {
    c.ListManaged? || c.LookUpMarked? || c.Delete? || c.AdoptListed? || c.CreateOrphanClaim? || c.GetVolume? || c.GetItsClaim?
  }

  predicate OfComponent(c: Call) {
    c.WantPlain? || c.GetWanted? || c.GetOwner? || c.DeleteOwner? || c.CreateClaim?
  }

  predicate OfHandler(c: Call) {
    c.GetClaim? || c.CheckPods? || c.PickVolume? || c.DeleteItsClaim?
  }

  datatype Party = PvController | ComponentController | DeleteHandler

  /** The call is one of those this party makes, and it is made by process p. */
  predicate Makes(party: Party, p: nat, c: Call) {
    && (c.Update? || c.LoseUpdate? || c.GiveUp? || match party
        case PvController => OfPv(c)
        case ComponentController => OfComponent(c)
        case DeleteHandler => OfHandler(c))
    && c.p == p
  }

  ghost function Next(w: World, c: Call): World
    requires Enabled(w, c)
  {
    if OfPv(c) then PvStep(w, c)
    else if OfComponent(c) then ComponentStep(w, c)
    else if OfHandler(c) then HandlerStep(w, c)
    else OtherStep(w, c)
  }
}
