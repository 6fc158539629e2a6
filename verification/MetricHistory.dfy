/** Merging time series point by point. Timestamps are Unix seconds, values exact. */
module MetricHistory {

  datatype MetricPoint = MetricPoint(unix: int, value: real)

  type History = seq<MetricPoint>

  ghost predicate Sorted(h: History) {
    forall i, j :: 0 <= i < j < |h| ==> h[i].unix <= h[j].unix
  }

  /** How many points a series has at a timestamp. */
  function CountAt(h: History, t: int): nat {
    if h == [] then 0 else (if h[0].unix == t then 1 else 0) + CountAt(h[1..], t)
  }

  /** What the points at a timestamp sum to. */
  function SumAt(h: History, t: int): real {
    if h == [] then 0.0 else (if h[0].unix == t then h[0].value else 0.0) + SumAt(h[1..], t)
  }

  ghost predicate UniqueStamps(h: History) {
    forall t :: CountAt(h, t) <= 1
  }

  function MaxNat(a: nat, b: nat): nat {
    if a < b then b else a
  }

  // ---- merging ----

  function Merge(a: History, b: History): History {
    if a == [] then b
    else if b == [] then a
    else if a[0].unix == b[0].unix then [MetricPoint(a[0].unix, a[0].value + b[0].value)] + Merge(a[1..], b[1..])
    else if a[0].unix < b[0].unix then [a[0]] + Merge(a[1..], b)
    else [b[0]] + Merge(a, b[1..])
  }

  ghost predicate SortedFrom(sorted: History, h: History) {
    multiset(sorted) == multiset(h) && Sorted(sorted)
  }

  /** The library sort, by insertion; callers use only that the array is rearranged in order. */
  method SortMetricHistory(a: array<MetricPoint>)
    modifies a
    ensures SortedFrom(a[..], old(a[..]))
  {
    var points := a[..];
    var sorted: History := [];
    for i := 0 to |points|
      invariant SortedFrom(sorted, points[..i])
    {
      sorted := Insert(sorted, points[i]);
      assert points[..i + 1] == points[..i] + [points[i]];
    }
    assert points[..|points|] == points;
    assert |sorted| == |multiset(sorted)| == a.Length;
    forall i | 0 <= i < a.Length { a[i] := sorted[i]; }
    assert a[..] == sorted;
  }

  method Insert(h: History, p: MetricPoint) returns (r: History)
    requires Sorted(h)
    ensures SortedFrom(r, h + [p])
  {
    var k := 0;
    while k < |h| && h[k].unix <= p.unix
      invariant 0 <= k <= |h|
      invariant forall j :: 0 <= j < k ==> h[j].unix <= p.unix
    {
      k := k + 1;
    }
    r := h[..k] + [p] + h[k..];
    assert h == h[..k] + h[k..];
    InsertedIsSorted(h, p, k, r);
  }

  lemma InsertedIsSorted(h: History, p: MetricPoint, k: nat, r: History)
    requires Sorted(h) && k <= |h| && r == h[..k] + [p] + h[k..]
    requires (forall j :: 0 <= j < k ==> h[j].unix <= p.unix) && (k < |h| ==> p.unix < h[k].unix)
    ensures Sorted(r)
  {
    forall i, j | 0 <= i < j < |r| ensures r[i].unix <= r[j].unix {
      assert i != k ==> r[i] == h[if i < k then i else i - 1];
      assert j != k ==> r[j] == h[if j < k then j else j - 1];
    }
  }

  /** Sorts both inputs in place and walks through them with two indices. */
  method MergeMetricHistories(a: array<MetricPoint>, b: array<MetricPoint>) returns (rst: History)
    requires a != b
    modifies a, b
    ensures SortedFrom(a[..], old(a[..])) && SortedFrom(b[..], old(b[..]))
    ensures rst == Merge(a[..], b[..])
  {
    SortMetricHistory(a);
    SortMetricHistory(b);
    rst := MergeSorted(a[..], b[..]);
  }

  method MergeSorted(a: History, b: History) returns (rst: History)
    ensures rst == Merge(a, b)
  {
    var i, j := 0, 0;
    rst := [];
    MergeStarts(a, b, i, j, rst);
    while i < |a| && j < |b|
      invariant 0 <= i <= |a| && 0 <= j <= |b|
      invariant MergeWith(rst, a, b, i, j) == Merge(a, b)
    {
      MergeMoves(rst, a, b, i, j);
      var eleA, eleB := a[i], b[j];
      if eleA.unix == eleB.unix {
        rst := rst + [MetricPoint(eleA.unix, eleA.value + eleB.value)];
        i, j := i + 1, j + 1;
      } else if eleA.unix < eleB.unix {
        rst := rst + [eleA];
        i := i + 1;
      } else {
        rst := rst + [eleB];
        j := j + 1;
      }
    }
    MergeEnds(rst, a, b, i, j);
    rst := rst + a[i..];
    rst := rst + b[j..];
  }

  /** What is merged so far and what the rest of the two inputs gives. */
  function MergeWith(done: History, a: History, b: History, i: nat, j: nat): History
    requires i <= |a| && j <= |b|
  {
    done + Merge(a[i..], b[j..])
  }

  lemma MergeStarts(a: History, b: History, i: nat, j: nat, done: History)
    requires i == 0 && j == 0 && done == []
    ensures MergeWith(done, a, b, i, j) == Merge(a, b)
  {
    assert a[i..] == a && b[j..] == b;
  }

  lemma MergeEnds(done: History, a: History, b: History, i: nat, j: nat)
    requires i <= |a| && j <= |b| && (i == |a| || j == |b|)
    ensures MergeWith(done, a, b, i, j) == (done + a[i..]) + b[j..]
  {
    assert Merge(a[i..], b[j..]) == a[i..] + b[j..];
  }

  lemma MergeMoves(done: History, a: History, b: History, i: nat, j: nat)
    requires i < |a| && j < |b|
    ensures MergeWith(done, a, b, i, j) ==
      if a[i].unix == b[j].unix
      then MergeWith(done + [MetricPoint(a[i].unix, a[i].value + b[j].value)], a, b, i + 1, j + 1)
      else if a[i].unix < b[j].unix then MergeWith(done + [a[i]], a, b, i + 1, j)
      else MergeWith(done + [b[j]], a, b, i, j + 1)
  {
    MergeStep(a, b, i, j);
    if a[i].unix == b[j].unix {
      Moved(done, MetricPoint(a[i].unix, a[i].value + b[j].value), Merge(a[i + 1..], b[j + 1..]));
    } else if a[i].unix < b[j].unix {
      Moved(done, a[i], Merge(a[i + 1..], b[j..]));
    } else {
      Moved(done, b[j], Merge(a[i..], b[j + 1..]));
    }
  }

  lemma MergeStep(a: History, b: History, i: nat, j: nat)
    requires i < |a| && j < |b|
    ensures Merge(a[i..], b[j..]) ==
      if a[i].unix == b[j].unix
      then [MetricPoint(a[i].unix, a[i].value + b[j].value)] + Merge(a[i + 1..], b[j + 1..])
      else if a[i].unix < b[j].unix then [a[i]] + Merge(a[i + 1..], b[j..])
      else [b[j]] + Merge(a[i..], b[j + 1..])
  {
    assert a[i..][1..] == a[i + 1..] && b[j..][1..] == b[j + 1..];
  }

  lemma Moved(done: History, p: MetricPoint, rest: History)
    ensures done + ([p] + rest) == (done + [p]) + rest
  {
  }

  // ---- what a merge keeps ----

  lemma {:induction false} AbsentBelow(h: History, t: int)
    requires Sorted(h) && (h != [] ==> t < h[0].unix)
    ensures CountAt(h, t) == 0 && SumAt(h, t) == 0.0
  {
    if h != [] {
      AbsentBelow(h[1..], t);
    }
  }

  lemma TallyFirst(p: MetricPoint, rest: History, t: int)
    ensures CountAt([p] + rest, t) == (if p.unix == t then 1 else 0) + CountAt(rest, t)
    ensures SumAt([p] + rest, t) == (if p.unix == t then p.value else 0.0) + SumAt(rest, t)
  {
    assert ([p] + rest)[1..] == rest;
  }

  /** At every timestamp a merge has as many points as the fuller input, and the sum of both. */
  lemma {:induction false} MergeTally(a: History, b: History, t: int)
    requires Sorted(a) && Sorted(b)
    ensures CountAt(Merge(a, b), t) == MaxNat(CountAt(a, t), CountAt(b, t))
    ensures SumAt(Merge(a, b), t) == SumAt(a, t) + SumAt(b, t)
    decreases |a| + |b|
  {
    if a != [] && b != [] {
      if a[0].unix == b[0].unix {
        MergeTally(a[1..], b[1..], t);
        TallyFirst(MetricPoint(a[0].unix, a[0].value + b[0].value), Merge(a[1..], b[1..]), t);
      } else if a[0].unix < b[0].unix {
        MergeTally(a[1..], b, t);
        TallyFirst(a[0], Merge(a[1..], b), t);
        if t == a[0].unix { AbsentBelow(b, t); }
      } else {
        MergeTally(a, b[1..], t);
        TallyFirst(b[0], Merge(a, b[1..]), t);
        if t == b[0].unix { AbsentBelow(a, t); }
      }
    }
  }

  lemma SortedCons(p: MetricPoint, rest: History)
    requires Sorted(rest) && (rest != [] ==> p.unix <= rest[0].unix)
    ensures Sorted([p] + rest)
  {
  }

  lemma {:induction false} MergeIsSorted(a: History, b: History)
    requires Sorted(a) && Sorted(b)
    ensures Sorted(Merge(a, b))
    ensures Merge(a, b) != [] ==> (a != [] && Merge(a, b)[0].unix == a[0].unix) || (b != [] && Merge(a, b)[0].unix == b[0].unix)
    decreases |a| + |b|
  {
    if a != [] && b != [] {
      if a[0].unix == b[0].unix {
        MergeIsSorted(a[1..], b[1..]);
        SortedCons(MetricPoint(a[0].unix, a[0].value + b[0].value), Merge(a[1..], b[1..]));
      } else if a[0].unix < b[0].unix {
        MergeIsSorted(a[1..], b);
        SortedCons(a[0], Merge(a[1..], b));
      } else {
        MergeIsSorted(a, b[1..]);
        SortedCons(b[0], Merge(a, b[1..]));
      }
    }
  }

  /** A merge has unique timestamps exactly when both inputs do. */
  lemma MergeIsUniqueIff(a: History, b: History)
    requires Sorted(a) && Sorted(b)
    ensures UniqueStamps(Merge(a, b)) <==> UniqueStamps(a) && UniqueStamps(b)
  {
    forall t ensures CountAt(Merge(a, b), t) == MaxNat(CountAt(a, t), CountAt(b, t)) {
      MergeTally(a, b, t);
    }
  }

  // ---- rearranging ----

  lemma {:induction false} TallyAppend(a: History, b: History, t: int)
    ensures CountAt(a + b, t) == CountAt(a, t) + CountAt(b, t)
    ensures SumAt(a + b, t) == SumAt(a, t) + SumAt(b, t)
  {
    if a == [] {
      assert a + b == b;
    } else {
      TallyAppend(a[1..], b, t);
      assert a + b == [a[0]] + (a[1..] + b);
      TallyFirst(a[0], a[1..] + b, t);
    }
  }

  lemma {:induction false} TallyOfRearranged(a: History, b: History, t: int)
    requires multiset(a) == multiset(b)
    ensures CountAt(a, t) == CountAt(b, t) && SumAt(a, t) == SumAt(b, t)
  {
    if a == [] {
      assert |b| == |multiset(b)| == 0;
    } else {
      var k, rest := TakeOut(a, b);
      TallyOfRearranged(a[1..], rest, t);
      TallyAppend(b[..k], [b[k]] + b[k + 1..], t);
      TallyAppend(b[..k], b[k + 1..], t);
      TallyFirst(b[k], b[k + 1..], t);
      assert b == b[..k] + ([b[k]] + b[k + 1..]);
    }
  }

  lemma RemoveAt<T>(s: seq<T>, k: nat)
    requires k < |s|
    ensures multiset(s) == multiset(s[..k] + s[k + 1..]) + multiset{s[k]}
  {
    assert s == s[..k] + [s[k]] + s[k + 1..];
  }

  lemma FirstOff<T>(s: seq<T>)
    requires s != []
    ensures multiset(s) == multiset(s[1..]) + multiset{s[0]}
  {
    assert s == [s[0]] + s[1..];
  }

  lemma Cancel<T>(m: multiset<T>, n: multiset<T>, x: T)
    requires m + multiset{x} == n + multiset{x}
    ensures m == n
  {
    assert m + multiset{x} - multiset{x} == m && n + multiset{x} - multiset{x} == n;
  }

  lemma TakeOut<T>(a: seq<T>, b: seq<T>) returns (k: nat, rest: seq<T>)
    requires a != [] && multiset(a) == multiset(b)
    ensures k < |b| && b[k] == a[0] && rest == b[..k] + b[k + 1..] && multiset(a[1..]) == multiset(rest)
  {
    assert a[0] in multiset(a);
    k :| 0 <= k < |b| && b[k] == a[0];
    rest := b[..k] + b[k + 1..];
    FirstOff(a);
    RemoveAt(b, k);
    Cancel(multiset(a[1..]), multiset(rest), a[0]);
  }

  /** A sorted series with unique timestamps is determined by its counts and sums. */
  lemma {:induction false} Determined(a: History, b: History)
    requires Sorted(a) && Sorted(b) && UniqueStamps(a)
    requires forall t :: CountAt(a, t) == CountAt(b, t) && SumAt(a, t) == SumAt(b, t)
    ensures a == b
  {
    SameFirstStamp(a, b);
    if a != [] {
      SameFirst(a, b);
      Determined(a[1..], b[1..]);
      assert a == [a[0]] + a[1..] && b == [b[0]] + b[1..];
    }
  }

  lemma SameFirstStamp(a: History, b: History)
    requires Sorted(a) && Sorted(b) && forall t :: CountAt(a, t) == CountAt(b, t)
    ensures a == [] <==> b == []
    ensures a != [] ==> a[0].unix == b[0].unix
  {
    if a != [] && (b == [] || a[0].unix < b[0].unix) {
      AbsentBelow(b, a[0].unix);
    } else if b != [] && (a == [] || b[0].unix < a[0].unix) {
      AbsentBelow(a, b[0].unix);
    }
  }

  lemma {:induction false} NoCountNoSum(h: History, t: int)
    ensures CountAt(h, t) == 0 ==> SumAt(h, t) == 0.0
  {
    if h != [] { NoCountNoSum(h[1..], t); }
  }

  lemma SameFirst(a: History, b: History)
    requires a != [] && b != [] && a[0].unix == b[0].unix && UniqueStamps(a)
    requires forall t :: CountAt(a, t) == CountAt(b, t) && SumAt(a, t) == SumAt(b, t)
    ensures a[0] == b[0] && UniqueStamps(a[1..])
    ensures forall t :: CountAt(a[1..], t) == CountAt(b[1..], t) && SumAt(a[1..], t) == SumAt(b[1..], t)
  {
    var u := a[0].unix;
    NoCountNoSum(a[1..], u);
    NoCountNoSum(b[1..], u);
    assert CountAt(a, u) == CountAt(b, u) <= 1;
    forall t
      ensures CountAt(a[1..], t) == CountAt(b[1..], t) && SumAt(a[1..], t) == SumAt(b[1..], t)
      ensures CountAt(a[1..], t) <= 1
    {
      assert CountAt(a, t) == CountAt(b, t) && SumAt(a, t) == SumAt(b, t) && CountAt(a, t) <= 1;
    }
  }

  // ---- folding over services ----

  /** r is what merging a and b can return: each input sorted, in some way, and merged. */
  ghost predicate IsMerge(a: History, b: History, r: History) {
    exists x, y :: SortedFrom(x, a) && SortedFrom(y, b) && r == Merge(x, y)
  }

  /** r is what folding the series of all services, in this order, can return. */
  ghost predicate Folded(list: seq<History>, r: History) {
    if list == [] then r == []
    else
      var init, last := list[..|list| - 1], list[|list| - 1];
      exists before :: Folded(init, before) && IsMerge(before, last, r)
  }

  function TotalAt(list: seq<History>, t: int): real {
    if list == [] then 0.0 else TotalAt(list[..|list| - 1], t) + SumAt(list[|list| - 1], t)
  }

  function FullestAt(list: seq<History>, t: int): nat {
    if list == [] then 0 else MaxNat(FullestAt(list[..|list| - 1], t), CountAt(list[|list| - 1], t))
  }

  lemma IsMergeTally(a: History, b: History, r: History, t: int)
    requires IsMerge(a, b, r)
    ensures Sorted(r)
    ensures CountAt(r, t) == MaxNat(CountAt(a, t), CountAt(b, t)) && SumAt(r, t) == SumAt(a, t) + SumAt(b, t)
  {
    var x, y :| SortedFrom(x, a) && SortedFrom(y, b) && r == Merge(x, y);
    MergeIsSorted(x, y);
    MergeTally(x, y, t);
    TallyOfRearranged(x, a, t);
    TallyOfRearranged(y, b, t);
  }

  /** A fold is sorted, conserves the sum at every timestamp and has as many points there as the fullest series. */
  lemma {:induction false} FoldTally(list: seq<History>, r: History, t: int)
    requires Folded(list, r)
    ensures Sorted(r) && SumAt(r, t) == TotalAt(list, t) && CountAt(r, t) == FullestAt(list, t)
  {
    if list != [] {
      var init := list[..|list| - 1];
      var before :| Folded(init, before) && IsMerge(before, list[|list| - 1], r);
      FoldTally(init, before, t);
      IsMergeTally(before, list[|list| - 1], r, t);
    }
  }

  lemma TotalLast(list: seq<History>, h: History, t: int)
    ensures TotalAt(list + [h], t) == TotalAt(list, t) + SumAt(h, t)
    ensures FullestAt(list + [h], t) == MaxNat(FullestAt(list, t), CountAt(h, t))
  {
    assert (list + [h])[..|list|] == list;
  }

  lemma {:induction false} TotalAppend(a: seq<History>, b: seq<History>, t: int)
    ensures TotalAt(a + b, t) == TotalAt(a, t) + TotalAt(b, t)
    ensures FullestAt(a + b, t) == MaxNat(FullestAt(a, t), FullestAt(b, t))
  {
    if b == [] {
      assert a + b == a;
    } else {
      var init, last := b[..|b| - 1], b[|b| - 1];
      TotalAppend(a, init, t);
      TotalLast(a + init, last, t);
      assert a + b == (a + init) + [last];
    }
  }

  lemma TotalOne(h: History, t: int)
    ensures TotalAt([h], t) == SumAt(h, t) && FullestAt([h], t) == CountAt(h, t)
  {
    assert [h][..0] == [];
  }

  lemma {:induction false} TotalOfRearranged(x: seq<History>, y: seq<History>, t: int)
    requires multiset(x) == multiset(y)
    ensures TotalAt(x, t) == TotalAt(y, t) && FullestAt(x, t) == FullestAt(y, t)
  {
    if x == [] {
      assert |y| == |multiset(y)| == 0;
    } else {
      var k, rest := TakeOut(x, y);
      TotalOfRearranged(x[1..], rest, t);
      assert x == [x[0]] + x[1..] && y == y[..k] + ([y[k]] + y[k + 1..]);
      TotalAppend([x[0]], x[1..], t);
      TotalAppend(y[..k], [y[k]] + y[k + 1..], t);
      TotalAppend([y[k]], y[k + 1..], t);
      TotalAppend(y[..k], y[k + 1..], t);
      TotalOne(x[0], t);
    }
  }

  lemma {:induction false} FullestIsUnique(list: seq<History>, t: int)
    requires forall h :: h in list ==> UniqueStamps(h)
    ensures FullestAt(list, t) <= 1
  {
    if list != [] {
      FullestIsUnique(list[..|list| - 1], t);
      assert list[|list| - 1] in list;
    }
  }

  /** With unique timestamps in every series, all orders of folding give one and the same series. */
  lemma AnyOrderSameSeries(x: seq<History>, y: seq<History>, r: History, s: History)
    requires multiset(x) == multiset(y) && Folded(x, r) && Folded(y, s)
    requires forall h :: h in x ==> UniqueStamps(h)
    ensures r == s && UniqueStamps(r)
  {
    FoldTally(x, r, 0);
    FoldTally(y, s, 0);
    forall t
      ensures CountAt(r, t) == CountAt(s, t) && SumAt(r, t) == SumAt(s, t)
      ensures CountAt(r, t) <= 1
    {
      FoldTally(x, r, t);
      FoldTally(y, s, t);
      TotalOfRearranged(x, y, t);
      FullestIsUnique(x, t);
    }
    Determined(r, s);
  }

  lemma SingleFold(h: History, sorted: History)
    requires SortedFrom(sorted, h)
    ensures Folded([h], sorted)
  {
    assert [h][..0] == [] && Folded([], []);
    assert SortedFrom([], []) && Merge([], sorted) == sorted;
    assert IsMerge([], h, sorted);
  }

  // ---- when the timestamps are not unique ----

  /** No two different points share a timestamp. */
  ghost predicate NoRivals(h: History) {
    forall p, q :: p in h && q in h && p.unix == q.unix ==> p == q
  }

  ghost predicate OneResult(h: History) {
    forall r, s :: Folded([h], r) && Folded([h], s) ==> r == s
  }

  lemma FoldOfOne(h: History, r: History)
    ensures Folded([h], r) <==> SortedFrom(r, h)
  {
    assert [h][..0] == [];
    if Folded([h], r) {
      var before :| Folded([], before) && IsMerge(before, h, r);
      var x, y :| SortedFrom(x, before) && SortedFrom(y, h) && r == Merge(x, y);
      assert |x| == |multiset(x)| == 0;
    }
    if SortedFrom(r, h) {
      SingleFold(h, r);
    }
  }

  lemma LeastIsFirst(a: History, b: History)
    requires Sorted(a) && multiset(a) == multiset(b) && a != [] && b != []
    ensures a[0].unix <= b[0].unix && b[0] in a
  {
    assert b[0] in multiset(b) && b[0] in multiset(a);
    var i :| 0 <= i < |a| && a[i] == b[0];
    assert i > 0 ==> a[0].unix <= a[i].unix;
  }

  lemma SameRest(a: History, b: History)
    requires multiset(a) == multiset(b) && a != [] && b != [] && a[0] == b[0]
    ensures multiset(a[1..]) == multiset(b[1..])
  {
    FirstOff(a);
    FirstOff(b);
    Cancel(multiset(a[1..]), multiset(b[1..]), a[0]);
  }

  lemma SameLength(a: History, b: History)
    requires multiset(a) == multiset(b)
    ensures |a| == |b|
  {
    assert |multiset(a)| == |a| && |multiset(b)| == |b|;
  }

  /** A sorted arrangement is the only one when no two different points share a timestamp. */
  lemma {:induction false} SortedIsSettled(a: History, b: History)
    requires Sorted(a) && Sorted(b) && multiset(a) == multiset(b) && NoRivals(a)
    ensures a == b
  {
    SameLength(a, b);
    if a != [] {
      LeastIsFirst(a, b);
      LeastIsFirst(b, a);
      SameRest(a, b);
      SortedIsSettled(a[1..], b[1..]);
      assert a == [a[0]] + a[1..] && b == [b[0]] + b[1..];
    }
  }

  lemma NoRivalsRearranged(h: History, a: History)
    requires multiset(a) == multiset(h) && NoRivals(h)
    ensures NoRivals(a)
  {
    forall p | p in a ensures p in h {
      assert p in multiset(a) && p in multiset(h);
    }
  }

  /** A series sorted by insertion. */
  lemma {:induction false} Sorting(h: History) returns (a: History)
    ensures SortedFrom(a, h)
  {
    if h == [] {
      a := [];
    } else {
      var init, p := h[..|h| - 1], h[|h| - 1];
      assert h == init + [p];
      var before := Sorting(init);
      var k := PlaceFor(before, p);
      a := before[..k] + [p] + before[k..];
      assert before == before[..k] + before[k..];
      InsertedIsSorted(before, p, k, a);
    }
  }

  lemma {:induction false} PlaceFor(h: History, p: MetricPoint) returns (k: nat)
    requires Sorted(h)
    ensures k <= |h| && (forall j :: 0 <= j < k ==> h[j].unix <= p.unix) && (k < |h| ==> p.unix < h[k].unix)
  {
    if h == [] || p.unix < h[0].unix {
      k := 0;
    } else {
      var j := PlaceFor(h[1..], p);
      k := j + 1;
    }
  }

  /** Two rivals can be swapped: next to each other in some sorting, they can stand the other way round. */
  lemma RivalsComeEitherWay(h: History, p: MetricPoint, q: MetricPoint) returns (r: History, s: History)
    requires p in h && q in h && p != q && p.unix == q.unix
    ensures SortedFrom(r, h) && SortedFrom(s, h) && r != s
  {
    r := Sorting(h);
    assert p in multiset(r) && q in multiset(r);
    var i :| 0 <= i < |r| && r[i] == p;
    var j :| 0 <= j < |r| && r[j] == q;
    s := r[i := q][j := p];
    SwapIsRearranged(r, i, j);
    assert s[i] == q;
    forall m, n | 0 <= m < n < |s| ensures s[m].unix <= s[n].unix {
      assert s[m].unix == r[m].unix && s[n].unix == r[n].unix;
    }
  }

  lemma SwapIsRearranged<T>(s: seq<T>, i: nat, j: nat)
    requires i < |s| && j < |s|
    ensures multiset(s[i := s[j]][j := s[i]]) == multiset(s)
  {
  }

  /**
   The result for one series is settled if and only if no two different points share a timestamp: the library sort
   keeps no order between them.
   */
  lemma OneResultIff(h: History)
    ensures OneResult(h) <==> NoRivals(h)
  {
    if NoRivals(h) {
      forall r, s | Folded([h], r) && Folded([h], s) ensures r == s {
        FoldOfOne(h, r);
        FoldOfOne(h, s);
        NoRivalsRearranged(h, r);
        SortedIsSettled(r, s);
      }
    } else {
      var p, q :| p in h && q in h && p.unix == q.unix && p != q;
      var r, s := RivalsComeEitherWay(h, p, q);
      FoldOfOne(h, r);
      FoldOfOne(h, s);
    }
  }

  /** The least such series: two points of one timestamp may come out either way round. */
  lemma DuplicatesComeEitherWay(p: MetricPoint, q: MetricPoint)
    requires p.unix == q.unix
    ensures Folded([[p, q]], [p, q]) && Folded([[p, q]], [q, p])
  {
    assert multiset([q, p]) == multiset([p, q]);
    SingleFold([p, q], [p, q]);
    SingleFold([p, q], [q, p]);
  }
}
