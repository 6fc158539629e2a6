/** The admission rule that keeps a StatefulSet's template volumes from changing. */
module VolumeUpdates {
  import opened Base

  datatype VolumeKind = PersistentVolumeClaim | PersistentVolumeClaimTemplate | OtherVolume

  datatype Volume = Volume(pvc: string, kind: VolumeKind, size: int, storageClassName: Option<string>)

  datatype Workload = StatefulSet | OtherWorkload

  datatype Component = Component(workload: Workload, volumes: seq<Volume>)

  /** Why an update is refused. */
  datatype Refusal = SizeOfMap | NotInOld(name: string) | SizeChanged(name: string) | ClassChanged(name: string)

  /** The template volumes of a StatefulSet by claim name, the last of a name winning; none for other workloads. */
  function Templates(workload: Workload, volumes: seq<Volume>): map<string, Volume> {
    if volumes == [] then map[]
    else
      var init, last := Templates(workload, volumes[..|volumes| - 1]), volumes[|volumes| - 1];
      if workload.StatefulSet? && last.kind.PersistentVolumeClaimTemplate? then init[last.pvc := last] else init
  }

  function TemplatesOf(c: Component): map<string, Volume> {
    Templates(c.workload, c.volumes)
  }

  method GetStsTemplateVolMap(component: Component) returns (rst: map<string, Volume>)
    ensures rst == TemplatesOf(component)
  {
    rst := map[];
    for i := 0 to |component.volumes|
      invariant rst == Templates(component.workload, component.volumes[..i])
    {
      assert component.volumes[..i + 1][..i] == component.volumes[..i];
      var vol := component.volumes[i];
      if !component.workload.StatefulSet? { continue; }
      if !vol.kind.PersistentVolumeClaimTemplate? { continue; }
      rst := rst[vol.pvc := vol];
    }
    assert component.volumes[..|component.volumes|] == component.volumes;
  }

  predicate CompatibleClass(a: Option<string>, b: Option<string>) {
    a.Some? && b.Some? ==> a == b
  }

  /** Same names, same sizes, and no two different storage classes. */
  ghost predicate Identical(new_: map<string, Volume>, old_: map<string, Volume>) {
    && new_.Keys == old_.Keys
    && forall n :: n in new_ ==>
      new_[n].size == old_[n].size && CompatibleClass(new_[n].storageClassName, old_[n].storageClassName)
  }

  method IsIdenticalVolMap(new_: map<string, Volume>, old_: map<string, Volume>) returns (same: bool, err: Option<Refusal>)
    ensures same <==> Identical(new_, old_)
    ensures same <==> err.None?
  {
    if |new_| != |old_| {
      return false, Some(SizeOfMap);
    }
    var todo := new_.Keys;
    while todo != {}
      invariant todo <= new_.Keys
      invariant forall n :: n in new_.Keys - todo ==> n in old_ && new_[n].size == old_[n].size
      invariant forall n :: n in new_.Keys - todo ==>
        CompatibleClass(new_[n].storageClassName, old_[n].storageClassName)
      decreases |todo|
    {
      var name :| name in todo;
      if name !in old_ { return false, Some(NotInOld(name)); }
      if new_[name].size != old_[name].size { return false, Some(SizeChanged(name)); }
      var scNew, scOld := new_[name].storageClassName, old_[name].storageClassName;
      if scNew.Some? && scOld.Some? && scNew.value != scOld.value { return false, Some(ClassChanged(name)); }
      todo := todo - {name};
    }
    assert new_.Keys <= old_.Keys;
    SameSizeSubset(new_.Keys, old_.Keys);
    return true, None;
  }

  /** One-way inclusion and equal size make two sets equal. */
  lemma SameSizeSubset<T>(a: set<T>, b: set<T>)
    requires a <= b && |a| == |b|
    ensures a == b
  {
    assert a - b == {} && a * b == a && a + b == b;
    assert |b - a| == 0;
  }

  /** Accepted exactly when the template volumes are identical and nothing else is wrong with the component. */
  ghost predicate Accepted(old_: Component, new_: Component, commonErrors: nat) {
    commonErrors == 0 && (new_.workload.StatefulSet? ==> Identical(TemplatesOf(new_), TemplatesOf(old_)))
  }

  /** commonErrors is the number of errors the checks that look at the new component alone find. */
  method ValidateUpdate(old_: Component, new_: Component, commonErrors: nat) returns (errors: nat)
    ensures errors == 0 <==> Accepted(old_, new_, commonErrors)
  {
    errors := 0;
    if new_.workload.StatefulSet? {
      var volMapNew := GetStsTemplateVolMap(new_);
      var volMapOld := GetStsTemplateVolMap(old_);
      var same, _ := IsIdenticalVolMap(volMapNew, volMapOld);
      if !same {
        errors := errors + 1;
      }
    }
    errors := errors + commonErrors;
  }

  // ---- what the rule means in the component's own fields ----

  /** The last template volume of a name in the list, the one that counts. */
  ghost predicate LastTemplate(volumes: seq<Volume>, name: string, i: nat) {
    && i < |volumes| && volumes[i].kind == PersistentVolumeClaimTemplate && volumes[i].pvc == name
    && forall j :: i < j < |volumes| && volumes[j].kind == PersistentVolumeClaimTemplate ==> volumes[j].pvc != name
  }

  lemma {:induction false} NoTemplatesElse(volumes: seq<Volume>)
    ensures Templates(OtherWorkload, volumes) == map[]
  {
    if volumes != [] {
      NoTemplatesElse(volumes[..|volumes| - 1]);
    }
  }

  /** The component is a StatefulSet and its last template volume of the name is this one. */
  ghost predicate IsTemplate(c: Component, name: string, v: Volume) {
    c.workload == StatefulSet && exists i: nat :: LastTemplate(c.volumes, name, i) && c.volumes[i] == v
  }

  ghost predicate HasTemplate(c: Component, name: string) {
    exists v :: IsTemplate(c, name, v)
  }

  /** Which volumes the rule looks at: of a StatefulSet the last template volume of each claim name, and no other. */
  lemma TemplatesMean(c: Component, name: string)
    ensures name in TemplatesOf(c) <==> HasTemplate(c, name)
    ensures forall v :: IsTemplate(c, name, v) ==> TemplatesOf(c)[name] == v
  {
    if c.workload == StatefulSet {
      TemplatesOfList(c.volumes, name);
      if name in TemplatesOf(c) {
        var i: nat :| LastTemplate(c.volumes, name, i);
        assert IsTemplate(c, name, c.volumes[i]);
      }
    } else {
      NoTemplatesElse(c.volumes);
    }
  }

  lemma {:induction false} TemplatesOfList(volumes: seq<Volume>, name: string)
    ensures name in Templates(StatefulSet, volumes) ==> exists i: nat :: LastTemplate(volumes, name, i)
    ensures forall i: nat :: LastTemplate(volumes, name, i) ==>
      name in Templates(StatefulSet, volumes) && Templates(StatefulSet, volumes)[name] == volumes[i]
  {
    if volumes != [] {
      var n := |volumes| - 1;
      var init, last := volumes[..n], volumes[n];
      TemplatesOfList(init, name);
      if last.kind == PersistentVolumeClaimTemplate && last.pvc == name {
        assert LastTemplate(volumes, name, n);
      } else {
        forall i: nat ensures LastTemplate(volumes, name, i) <==> LastTemplate(init, name, i) {
          assert forall j :: 0 <= j < n ==> volumes[j] == init[j];
        }
      }
    }
  }

  /** Two template volumes that may follow each other. */
  predicate MayReplace(was: Volume, is_: Volume) {
    && was.size == is_.size
    && (was.storageClassName == None || is_.storageClassName == None || was.storageClassName == is_.storageClassName)
  }

  ghost predicate SameNames(old_: Component, new_: Component) {
    forall n :: HasTemplate(new_, n) <==> HasTemplate(old_, n)
  }

  ghost predicate AllMayReplace(old_: Component, new_: Component) {
    forall n, was, is_ :: IsTemplate(old_, n, was) && IsTemplate(new_, n, is_) ==> MayReplace(was, is_)
  }

  lemma IdenticalMaps(old_: Component, new_: Component)
    requires SameNames(old_, new_) && AllMayReplace(old_, new_)
    ensures Identical(TemplatesOf(new_), TemplatesOf(old_))
  {
    var a, b := TemplatesOf(old_), TemplatesOf(new_);
    forall n ensures n in b <==> n in a {
      TemplatesMean(old_, n);
      TemplatesMean(new_, n);
    }
    forall n | n in b ensures MayReplace(a[n], b[n]) {
      TemplatesMean(old_, n);
      TemplatesMean(new_, n);
      assert IsTemplate(old_, n, a[n]) && IsTemplate(new_, n, b[n]);
    }
  }

  lemma IdenticalTemplates(old_: Component, new_: Component)
    requires Identical(TemplatesOf(new_), TemplatesOf(old_))
    ensures SameNames(old_, new_) && AllMayReplace(old_, new_)
  {
    forall n ensures HasTemplate(new_, n) <==> HasTemplate(old_, n) {
      TemplatesMean(old_, n);
      TemplatesMean(new_, n);
    }
    forall n, was, is_ | IsTemplate(old_, n, was) && IsTemplate(new_, n, is_) ensures MayReplace(was, is_) {
      TemplatesMean(old_, n);
      TemplatesMean(new_, n);
    }
  }

  /**
   An update to a StatefulSet passes if and only if no other check fails, the old version's templates (none unless
   that was a StatefulSet too) have the claim names of the new one's, and those of one name agree in size and do not
   name two classes. Volumes of the other kinds have no say.
   */
  lemma AcceptedMeans(old_: Component, new_: Component, commonErrors: nat)
    requires new_.workload == StatefulSet
    ensures Accepted(old_, new_, commonErrors) <==>
      commonErrors == 0 && SameNames(old_, new_) && AllMayReplace(old_, new_)
  {
    if SameNames(old_, new_) && AllMayReplace(old_, new_) {
      IdenticalMaps(old_, new_);
    } else if Identical(TemplatesOf(new_), TemplatesOf(old_)) {
      IdenticalTemplates(old_, new_);
    }
  }

  // ---- runs of accepted updates ----

  ghost predicate AcceptedStep(old_: Component, new_: Component) {
    Accepted(old_, new_, 0)
  }

  /** The versions of one component, each update accepted. */
  ghost predicate IsRun(versions: seq<Component>) {
    versions != [] && forall i :: 0 < i < |versions| ==> AcceptedStep(versions[i - 1], versions[i])
  }

  ghost predicate SameNamesAndSizes(a: map<string, Volume>, b: map<string, Volume>) {
    a.Keys == b.Keys && forall n :: n in a ==> a[n].size == b[n].size
  }

  predicate AlwaysStateful(versions: seq<Component>) {
    forall i :: 0 <= i < |versions| ==> versions[i].workload.StatefulSet?
  }

  /**
   Every later StatefulSet version of a StatefulSet has the original template names and sizes if every version in
   between was one too, and no template at all if the workload type was changed in between.
   */
  lemma {:induction false} TemplatesNeverChange(versions: seq<Component>)
    requires IsRun(versions) && versions[0].workload.StatefulSet? && versions[|versions| - 1].workload.StatefulSet?
    ensures var first, last := TemplatesOf(versions[0]), TemplatesOf(versions[|versions| - 1]);
      if AlwaysStateful(versions) then SameNamesAndSizes(last, first) else last == map[]
  {
    if |versions| > 1 {
      var init, n := versions[..|versions| - 1], |versions| - 1;
      assert AcceptedStep(versions[n - 1], versions[n]);
      assert versions == init + [versions[n]];
      assert forall i :: 0 <= i < n ==> init[i] == versions[i];
      if versions[n - 1].workload.StatefulSet? {
        TemplatesNeverChange(init);
        assert AlwaysStateful(versions) <==> AlwaysStateful(init);
      } else {
        NoTemplatesElse(versions[n - 1].volumes);
        assert TemplatesOf(versions[n]).Keys == {};
      }
    }
  }

  // ---- storage classes ----

  /** A run of one StatefulSet all of whose versions have the template. */
  ghost predicate RunWith(versions: seq<Component>, n: string) {
    && IsRun(versions) && AlwaysStateful(versions)
    && forall i :: 0 <= i < |versions| ==> n in TemplatesOf(versions[i])
  }

  function ClassAt(versions: seq<Component>, n: string, i: nat): Option<string>
    requires i < |versions| && n in TemplatesOf(versions[i])
  {
    TemplatesOf(versions[i])[n].storageClassName
  }

  /** Which versions name a class for the template. */
  ghost predicate HasPattern(versions: seq<Component>, n: string, named: seq<bool>) {
    && RunWith(versions, n) && |versions| == |named|
    && forall i :: 0 <= i < |named| ==> (named[i] <==> ClassAt(versions, n, i).Some?)
  }

  /** All versions that name a class name the same one. */
  ghost predicate ClassKept(versions: seq<Component>, n: string)
    requires RunWith(versions, n)
  {
    forall i, j :: 0 <= i < j < |versions| && ClassAt(versions, n, i).Some? && ClassAt(versions, n, j).Some? ==>
      ClassAt(versions, n, i) == ClassAt(versions, n, j)
  }

  /** No version that leaves the class out lies between two that name it. */
  predicate NoGap(named: seq<bool>) {
    forall i, k, j :: 0 <= i < k < j < |named| && named[i] && named[j] ==> named[k]
  }

  lemma {:induction false} NamedThroughout(versions: seq<Component>, n: string, i: nat, j: nat)
    requires RunWith(versions, n) && i <= j < |versions|
    requires forall k :: i <= k <= j ==> ClassAt(versions, n, k).Some?
    ensures ClassAt(versions, n, i) == ClassAt(versions, n, j)
    decreases j
  {
    if i < j {
      NamedThroughout(versions, n, i, j - 1);
      assert AcceptedStep(versions[j - 1], versions[j]);
    }
  }

  /** With no gap the class is kept; every accepted update compares the class only with the version before it. */
  lemma NoGapKeepsClass(versions: seq<Component>, n: string, named: seq<bool>)
    requires HasPattern(versions, n, named) && NoGap(named)
    ensures ClassKept(versions, n)
  {
    forall i, j | 0 <= i < j < |versions| && ClassAt(versions, n, i).Some? && ClassAt(versions, n, j).Some?
      ensures ClassAt(versions, n, i) == ClassAt(versions, n, j)
    {
      forall k | i <= k <= j ensures ClassAt(versions, n, k).Some? {
        assert named[i] && named[j] && named[k];
      }
      NamedThroughout(versions, n, i, j);
    }
  }

  function OneTemplate(n: string, class_: Option<string>): Component {
    Component(StatefulSet, [Volume(n, PersistentVolumeClaimTemplate, 1, class_)])
  }

  lemma OneTemplateMap(n: string, class_: Option<string>)
    ensures TemplatesOf(OneTemplate(n, class_)) == map[n := Volume(n, PersistentVolumeClaimTemplate, 1, class_)]
  {
    var volumes := OneTemplate(n, class_).volumes;
    assert volumes[..0] == [] && Templates(StatefulSet, []) == map[];
  }

  /** One class up to the gap and another after it. */
  function Drifting(n: string, named: seq<bool>, gap: nat, a: string, b: string): (versions: seq<Component>)
    ensures |versions| == |named|
  {
    seq(|named|, i requires 0 <= i < |named| =>
      OneTemplate(n, if !named[i] then None else if i < gap then Some(a) else Some(b)))
  }

  function DriftingClass(named: seq<bool>, gap: nat, a: string, b: string, k: nat): Option<string>
    requires k < |named|
  {
    if !named[k] then None else if k < gap then Some(a) else Some(b)
  }

  lemma DriftingAt(n: string, named: seq<bool>, gap: nat, a: string, b: string, k: nat)
    requires k < |named|
    ensures var versions := Drifting(n, named, gap, a, b);
      n in TemplatesOf(versions[k]) && ClassAt(versions, n, k) == DriftingClass(named, gap, a, b, k)
  {
    OneTemplateMap(n, DriftingClass(named, gap, a, b, k));
  }

  lemma DriftingStep(n: string, named: seq<bool>, gap: nat, a: string, b: string, k: nat)
    requires 0 < k < |named| && gap < |named| && !named[gap]
    ensures AcceptedStep(Drifting(n, named, gap, a, b)[k - 1], Drifting(n, named, gap, a, b)[k])
  {
    OneTemplateMap(n, DriftingClass(named, gap, a, b, k - 1));
    OneTemplateMap(n, DriftingClass(named, gap, a, b, k));
  }

  lemma GapLetsClassDrift(n: string, named: seq<bool>, i: nat, gap: nat, j: nat, a: string, b: string)
    requires i < gap < j < |named| && named[i] && !named[gap] && named[j] && a != b
    ensures HasPattern(Drifting(n, named, gap, a, b), n, named) && !ClassKept(Drifting(n, named, gap, a, b), n)
  {
    var versions := Drifting(n, named, gap, a, b);
    forall k | 0 <= k < |versions|
      ensures n in TemplatesOf(versions[k]) && ClassAt(versions, n, k) == DriftingClass(named, gap, a, b, k)
    {
      DriftingAt(n, named, gap, a, b, k);
    }
    forall k | 0 < k < |versions| ensures AcceptedStep(versions[k - 1], versions[k]) {
      DriftingStep(n, named, gap, a, b, k);
    }
    assert ClassAt(versions, n, i) == Some(a) && ClassAt(versions, n, j) == Some(b);
  }

  /**
   For any pattern of which versions name the template's class: every accepted run of that pattern keeps the class
   if and only if no version between two that name it leaves it out.
   */
  lemma ClassKeptIff(n: string, named: seq<bool>)
    ensures (forall versions :: HasPattern(versions, n, named) ==> ClassKept(versions, n)) <==> NoGap(named)
  {
    if NoGap(named) {
      forall versions | HasPattern(versions, n, named) ensures ClassKept(versions, n) {
        NoGapKeepsClass(versions, n, named);
      }
    } else {
      var i, k, j :| 0 <= i < k < j < |named| && named[i] && named[j] && !named[k];
      GapLetsClassDrift(n, named, i, k, j, "a", "b");
    }
  }
}
