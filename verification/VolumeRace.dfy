/**
 The delete of a volume is not conditional on the revision that was judged. A concrete run shows what that allows:
 between the PV controller's look-up and its delete, the component controller frees the volume and the binder
 gives it to a new claim, which nobody asked to delete.
 */
module VolumeRace {
  import opened Base
  import opened Volumes
  import opened VolumeCalls
  import opened VolumeSafety

  const ASKED := ClaimKey("shop", "data")
  const LATER := ClaimKey("blog", "data")
  const VOLUME := Volume(map[Managed := "true"], Some(ASKED), true, 1, "standard")
  const MARKED := Marked(VOLUME, ASKED)
  const COPY := Stored(1, MARKED)
  const FREED := Cleared(MARKED)
  const CLAIM := Claim(map[], None, 1, None)
  const WANTED := Claim(map[], Some("pv"), 1, None)

  function W(st: Stored, pvcs: map<ClaimKey, Claim>, procs: map<nat, Local>, hist: seq<Event>): World {
    World(map["pv" := st], pvcs, [], st.rev, procs, hist)
  }

  ghost predicate Leads(w: World, c: Call, w': World) {
    Enabled(w, c) && Next(w, c) == w'
  }

  /** A run that has got as far as world w, in which LATER was never asked about. */
  ghost predicate Reached(ws: seq<World>, calls: seq<Call>, n: nat, w: World) {
    IsRun(ws, calls) && Fresh(ws[0]) && |calls| == n && ws[n] == w
  }

  lemma Extend(ws: seq<World>, calls: seq<Call>, n: nat, w: World, c: Call, w': World)
    requires Reached(ws, calls, n, w) && Leads(w, c, w')
    ensures Reached(ws + [w'], calls + [c], n + 1, w')
  {
    var ws', calls' := ws + [w'], calls + [c];
    forall i | 0 <= i < |calls'| ensures StepAt(ws', calls', i) {
      if i < n { assert StepAt(ws, calls, i); }
    }
  }

  // the worlds of the run
  const H1 := [FoundUnused(ASKED, true)]
  const H2 := [FoundUnused(ASKED, true), SeenGone(ASKED)]
  const W0 := W(Stored(0, VOLUME), map[ASKED := CLAIM], map[], [])
  const W1 := W(Stored(0, VOLUME), map[ASKED := CLAIM], map[0 := ClaimFound(ASKED)], [])
  const W2 := W(Stored(0, VOLUME), map[ASKED := CLAIM], map[0 := ClaimUnused(ASKED)], H1)
  const W3 := W(Stored(0, VOLUME), map[ASKED := CLAIM], map[0 := Pending("pv", Stored(0, VOLUME), MARKED, ToDelete(ASKED))], H1)
  const W4 := W(COPY, map[ASKED := CLAIM], map[0 := ClaimNext(ASKED)], H1)
  const W5 := W(COPY, map[], map[0 := Idle], H1)
  const W6 := W(COPY, map[], map[0 := Idle, 1 := Listed(map["pv" := COPY])], H1)
  const JUDGED := Judged(map["pv" := COPY], "pv")
  const W7 := W(COPY, map[], map[0 := Idle, 1 := JUDGED], H2)
  const W8 := W(COPY, map[], map[0 := Idle, 1 := JUDGED, 2 := Wants(LATER, WANTED, "pv", COPY)], H2)
  const W9 := W(COPY, map[], map[0 := Idle, 1 := JUDGED, 2 := Pending("pv", COPY, FREED, ToCreate(LATER, WANTED))], H2)
  const W10 := W(Stored(2, FREED), map[], map[0 := Idle, 1 := JUDGED, 2 := Creating(LATER, WANTED)], H2)
  const W11 := W(Stored(2, FREED), map[LATER := WANTED], map[0 := Idle, 1 := JUDGED, 2 := Idle], H2)
  const W12 := W(Stored(3, FREED.(claimRef := Some(LATER))), map[LATER := WANTED], map[0 := Idle, 1 := JUDGED, 2 := Idle], H2)

  /** Two more steps of the run. */
  lemma Extend2(ws: seq<World>, calls: seq<Call>, n: nat, w: World, c: Call, w': World, c': Call, w'': World)
    returns (vs: seq<World>, done: seq<Call>)
    requires Reached(ws, calls, n, w) && Leads(w, c, w') && Leads(w', c', w'')
    ensures Reached(vs, done, n + 2, w'')
  {
    Extend(ws, calls, n, w, c, w');
    Extend(ws + [w'], calls + [c], n + 1, w', c', w'');
    vs, done := ws + [w'] + [w''], calls + [c] + [c'];
  }

  lemma HandlerReads(ws: seq<World>, calls: seq<Call>) returns (vs: seq<World>, done: seq<Call>)
    requires Reached(ws, calls, 0, W0)
    ensures Reached(vs, done, 2, W2)
  {
    assert Next(W0, GetClaim(0, ASKED)).procs == W1.procs;
    assert Next(W1, CheckPods(0, true)).procs == W2.procs;
    vs, done := Extend2(ws, calls, 0, W0, GetClaim(0, ASKED), W1, CheckPods(0, true), W2);
  }

  lemma HandlerMarks(ws: seq<World>, calls: seq<Call>) returns (vs: seq<World>, done: seq<Call>)
    requires Reached(ws, calls, 2, W2)
    ensures Reached(vs, done, 4, W4)
  {
    assert Next(W2, PickVolume(0, Some("pv"))).procs == W3.procs;
    assert Next(W3, Update(0)).procs == W4.procs;
    vs, done := Extend2(ws, calls, 2, W2, PickVolume(0, Some("pv")), W3, Update(0), W4);
  }

  lemma HandlerDeletes(ws: seq<World>, calls: seq<Call>) returns (vs: seq<World>, done: seq<Call>)
    requires Reached(ws, calls, 4, W4)
    ensures Reached(vs, done, 6, W6)
  {
    assert Next(W4, DeleteItsClaim(0)).procs == W5.procs;
    assert (map n | n in W5.pvs && IsManaged(W5.pvs[n].vol.labels) :: W5.pvs[n]) == map["pv" := COPY];
    assert Next(W5, ListManaged(1)).procs == W6.procs;
    vs, done := Extend2(ws, calls, 4, W4, DeleteItsClaim(0), W5, ListManaged(1), W6);
  }

  lemma ControllerJudges(ws: seq<World>, calls: seq<Call>) returns (vs: seq<World>, done: seq<Call>)
    requires Reached(ws, calls, 6, W6)
    ensures Reached(vs, done, 8, W8)
  {
    assert Next(W6, LookUpMarked(1, "pv")).procs == W7.procs;
    assert Next(W7, GetWanted(2, LATER, WANTED, "pv")).procs == W8.procs;
    vs, done := Extend2(ws, calls, 6, W6, LookUpMarked(1, "pv"), W7, GetWanted(2, LATER, WANTED, "pv"), W8);
  }

  lemma ComponentFrees(ws: seq<World>, calls: seq<Call>) returns (vs: seq<World>, done: seq<Call>)
    requires Reached(ws, calls, 8, W8)
    ensures Reached(vs, done, 10, W10)
  {
    assert Next(W8, GetOwner(2, true)).procs == W9.procs;
    assert Next(W9, Update(2)).procs == W10.procs;
    vs, done := Extend2(ws, calls, 8, W8, GetOwner(2, true), W9, Update(2), W10);
  }

  lemma BinderBinds(ws: seq<World>, calls: seq<Call>) returns (vs: seq<World>, done: seq<Call>)
    requires Reached(ws, calls, 10, W10)
    ensures Reached(vs, done, 12, W12)
  {
    assert Next(W10, CreateClaim(2)).procs == W11.procs;
    assert Next(W11, Bind("pv", LATER)).procs == W12.procs;
    vs, done := Extend2(ws, calls, 10, W10, CreateClaim(2), W11, Bind("pv", LATER), W12);
  }

  /**
   There is a run at the end of which Kalm deletes a volume that is bound to an existing claim whose deletion
   nobody requested.
   */
  lemma DeletedWhileBoundElsewhere() returns (ws: seq<World>, calls: seq<Call>)
    ensures IsRun(ws, calls) && Fresh(ws[0]) && |calls| == 13 && calls[12] == Delete(1)
    ensures "pv" in ws[12].pvs && "pv" !in ws[13].pvs
    ensures ws[12].pvs["pv"].vol.claimRef == Some(LATER) && LATER in ws[12].pvcs
    ensures !Granted(ws[12].hist, LATER)
  {
    ws, calls := HandlerReads([W0], []);
    ws, calls := HandlerMarks(ws, calls);
    ws, calls := HandlerDeletes(ws, calls);
    ws, calls := ControllerJudges(ws, calls);
    ws, calls := ComponentFrees(ws, calls);
    ws, calls := BinderBinds(ws, calls);
    var last := Next(W12, Delete(1));
    Extend(ws, calls, 12, W12, Delete(1), last);
    ws, calls := ws + [last], calls + [Delete(1)];
    assert "shop" != "blog";
  }
}
