/** Destination weights turned into percentages that sum to exactly 100, in exact arithmetic. */
module RouteWeights {

  function Sum(s: seq<int>): int {
    if s == [] then 0 else s[0] + Sum(s[1..])
  }

  /** floor(w / total * 100 + 0.5) */
  function Share(w: nat, total: nat): nat
    requires total > 0
  {
    (200 * w + total) / (2 * total)
  }

  function Shares(ws: seq<nat>, total: nat): (r: seq<int>)
    requires total > 0
    ensures |r| == |ws| && forall i :: 0 <= i < |ws| ==> r[i] == Share(ws[i], total)
  {
    seq(|ws|, i requires 0 <= i < |ws| => Share(ws[i], total))
  }

  ghost predicate IsFirstMax(s: seq<int>, i: int) {
    && 0 <= i < |s|
    && (forall j :: 0 <= j < i ==> s[j] < s[i])
    && (forall j :: i <= j < |s| ==> s[j] <= s[i])
  }

  /** Adds the difference to the first of the biggest entries. */
  method AdjustBiggestWeight(rst: array<int>, diff: int) returns (ghost maxIdx: int)
    modifies rst
    ensures rst.Length == 0 ==> maxIdx == -1
    ensures rst.Length > 0 ==>
      IsFirstMax(old(rst[..]), maxIdx) && rst[..] == old(rst[..])[maxIdx := old(rst[maxIdx]) + diff]
  {
    if rst.Length <= 0 { return -1; }
    var max := 0;
    for i := 0 to rst.Length
      invariant 0 <= max < rst.Length && max <= i
      invariant forall j :: 0 <= j < max ==> rst[j] < rst[max]
      invariant forall j :: max <= j < i ==> rst[j] <= rst[max]
    {
      if rst[i] <= rst[max] { continue; }
      max := i;
    }
    maxIdx := max;
    rst[max] := rst[max] + diff;
  }

  method SumOf(nums: seq<int>) returns (total: int)
    ensures total == Sum(nums)
  {
    total := 0;
    for i := 0 to |nums|
      invariant total + Sum(nums[i..]) == Sum(nums)
    {
      assert nums[i..][1..] == nums[i + 1..];
      total := total + nums[i];
    }
  }

  /** The rounded shares; undefined is what the division by a sum of zero is converted to. */
  function Rounded(ws: seq<nat>, undefined: int): (r: seq<int>)
    ensures |r| == |ws|
  {
    if Sum(ws) > 0 then Shares(ws, Sum(ws)) else seq(|ws|, _ => undefined)
  }

  /** The entries with the rounding error taken off the first biggest. */
  ghost predicate Evened(shares: seq<int>, rst: seq<int>, k: int) {
    IsFirstMax(shares, k) && rst == shares[k := shares[k] + (100 - Sum(shares))]
  }

  /** What the result must be when the division makes sense. */
  ghost predicate Adjusts(ws: seq<nat>, rst: seq<int>, k: int)
    requires ws != [] && Sum(ws) > 0
  {
    Evened(Shares(ws, Sum(ws)), rst, k)
  }

  method AdjustWeightToSumTo100(ws: seq<nat>, undefined: int) returns (rst: array<int>, ghost k: int)
    ensures fresh(rst) && rst.Length == |ws|
    ensures ws != [] ==> Evened(Rounded(ws, undefined), rst[..], k)
    ensures ws != [] && Sum(ws) > 0 ==> Adjusts(ws, rst[..], k)
  {
    var total := SumOf(ws);
    SumIsNatural(ws);
    rst := new int[|ws|];
    k := -1;
    if |ws| == 0 { return; }
    for i := 0 to |ws|
      invariant forall j :: 0 <= j < i ==> rst[j] == Rounded(ws, undefined)[j]
    {
      rst[i] := if total > 0 then Share(ws[i], total) else undefined;
    }
    assert rst[..] == Rounded(ws, undefined);
    var sum := SumOf(rst[..]);
    k := FirstMax(rst[..]);
    if sum != 100 {
      ghost var k' := AdjustBiggestWeight(rst, 100 - sum);
      k := k';
    }
  }

  lemma {:induction false} SumIsNatural(ws: seq<nat>)
    ensures Sum(ws) >= 0
  {
    if ws != [] { SumIsNatural(ws[1..]); }
  }

  lemma {:induction false} FirstMax(s: seq<int>) returns (k: int)
    requires s != []
    ensures IsFirstMax(s, k)
  {
    if |s| == 1 {
      k := 0;
    } else {
      var last := |s| - 1;
      k := FirstMax(s[..last]);
      if s[last] > s[k] { k := last; }
    }
  }

  // ---- how far rounding can go ----

  lemma RoundingError(w: nat, total: nat)
    requires total > 0
    ensures -1 * total < 2 * (total * Share(w, total)) - 200 * w <= total
  {
    var q := Share(w, total);
    assert 200 * w + total == (2 * total) * q + (200 * w + total) % (2 * total);
    Regroup(total, q);
  }

  lemma Regroup(t: int, q: int)
    ensures (2 * t) * q == 2 * (t * q)
  {
  }

  lemma Distribute(t: int, q: int, r: int)
    ensures t * (q + r) == t * q + t * r
  {
  }

  lemma {:induction false} TotalError(ws: seq<nat>, total: nat)
    requires total > 0
    ensures -1 * (total * |ws|) <= 2 * (total * Sum(Shares(ws, total))) - 200 * Sum(ws) <= total * |ws|
  {
    if ws == [] {
      assert total * Sum(Shares(ws, total)) == 0;
    } else {
      var rest := ws[1..];
      TotalError(rest, total);
      RoundingError(ws[0], total);
      var q, r := Share(ws[0], total), Sum(Shares(rest, total));
      assert Sum(Shares(ws, total)) == q + r by {
        assert Shares(ws, total)[1..] == Shares(rest, total);
      }
      Distribute(total, q, r);
      Distribute(total, 1, |rest|);
    }
  }

  lemma CancelFactor(x: int, n: nat, total: nat)
    requires total > 0 && -1 * (total * n) <= total * x <= total * n
    ensures -1 * n <= x <= n
  {
    if x > n {
      Distribute(total, n, x - n);
    }
    if x < -1 * n {
      Distribute(total, n, -1 * n - x);
      Distribute(total, x, -x);
    }
  }

  lemma Expand(total: int, t: int)
    ensures total * (2 * t - 200) == 2 * (total * t) - 200 * total
  {
  }

  /** The rounding error of n shares is at most n / 2 in either direction. */
  lemma DiffIsBounded(ws: seq<nat>)
    requires Sum(ws) > 0
    ensures -1 * |ws| <= 2 * (100 - Sum(Shares(ws, Sum(ws)))) <= |ws|
  {
    var total, t := Sum(ws), Sum(Shares(ws, Sum(ws)));
    TotalError(ws, total);
    Expand(total, t);
    CancelFactor(2 * t - 200, |ws|, total);
  }

  lemma {:induction false} SumUpdate(s: seq<int>, k: int, v: int)
    requires 0 <= k < |s|
    ensures Sum(s[k := v]) == Sum(s) - s[k] + v
  {
    if k == 0 {
      assert s[k := v][1..] == s[1..];
    } else {
      SumUpdate(s[1..], k - 1, v);
      assert s[k := v][1..] == s[1..][k - 1 := v];
    }
  }

  lemma {:induction false} SumAtMost(s: seq<int>, m: int)
    requires forall i :: 0 <= i < |s| ==> s[i] <= m
    ensures Sum(s) <= |s| * m
  {
    if s != [] {
      SumAtMost(s[1..], m);
      assert |s| * m == m + (|s| - 1) * m;
    }
  }

  lemma SumAppend(s: seq<int>, t: seq<int>)
    ensures Sum(s + t) == Sum(s) + Sum(t)
  {
    if s == [] {
      assert s + t == t;
    } else {
      SumAppend(s[1..], t);
      assert (s + t)[1..] == s[1..] + t;
    }
  }

  // ---- the promises ----

  /** Whatever the shares, once evened they sum to exactly 100. */
  lemma EvenedSumsTo100(shares: seq<int>, rst: seq<int>, k: int)
    requires Evened(shares, rst, k)
    ensures Sum(rst) == 100 && |rst| == |shares|
  {
    SumUpdate(shares, k, rst[k]);
  }

  /** The adjusted weights sum to exactly 100; only the first biggest moved, and by no more than half the count. */
  lemma AdjustedSumsTo100(ws: seq<nat>, rst: seq<int>, k: int)
    requires ws != [] && Sum(ws) > 0 && Adjusts(ws, rst, k)
    ensures Sum(rst) == 100
    ensures forall i :: 0 <= i < |ws| && i != k ==> rst[i] == Share(ws[i], Sum(ws))
    ensures -1 * |ws| <= 2 * (rst[k] - Share(ws[k], Sum(ws))) <= |ws|
  {
    var shares := Shares(ws, Sum(ws));
    SumUpdate(shares, k, rst[k]);
    DiffIsBounded(ws);
  }

  lemma SharesOfHundred(ws: seq<nat>)
    ensures Shares(ws, 100) == ws
  {
    forall w: nat ensures Share(w, 100) == w {
    }
  }

  lemma NothingToAdjust(shares: seq<int>, k: int)
    requires 0 <= k < |shares| && Sum(shares) == 100
    ensures shares[k := shares[k] + (100 - Sum(shares))] == shares
  {
  }

  /** Weights that already sum to 100 are left as they are. */
  lemma PercentagesAreKept(ws: seq<nat>, rst: seq<int>, k: int)
    requires ws != [] && Sum(ws) == 100 && Adjusts(ws, rst, k)
    ensures rst == ws
  {
    SharesOfHundred(ws);
    NothingToAdjust(Shares(ws, 100), k);
  }

  /** Shares of at least 100 - n / 2 in all give the biggest one room for the difference when n is at most 15. */
  lemma RoomForTheDifference(n: nat, big: int, sum: int)
    requires 0 < n <= 15 && sum <= n * big && -1 * n <= 2 * (100 - sum) <= n
    ensures big + (100 - sum) >= 0
  {
    assert big <= 6 ==> n * big <= n * 6;
  }

  /** Up to fifteen destinations no adjusted weight is negative. */
  lemma NoNegativeWeight(ws: seq<nat>, rst: seq<int>, k: int)
    requires ws != [] && Sum(ws) > 0 && Adjusts(ws, rst, k) && |ws| <= 15
    ensures forall i :: 0 <= i < |rst| ==> rst[i] >= 0
  {
    var shares := Shares(ws, Sum(ws));
    DiffIsBounded(ws);
    SumAtMost(shares, shares[k]);
    RoomForTheDifference(|ws|, shares[k], Sum(shares));
  }

  lemma {:induction false} SumOfEqual(s: seq<int>, v: int)
    requires forall i :: 0 <= i < |s| ==> s[i] == v
    ensures Sum(s) == |s| * v
  {
    if s != [] {
      SumOfEqual(s[1..], v);
      assert |s| * v == v + (|s| - 1) * v;
    }
  }

  /** More can be too many: twelve times 13, four times 11 and any number of zeros leave the first weight at -1. */
  lemma MoreThanFifteenCanGoNegative(n: nat) returns (ws: seq<nat>, rst: seq<int>)
    requires n >= 16
    ensures |ws| == n && Sum(ws) == 200 && Adjusts(ws, rst, 0) && rst[0] == -1
  {
    var a, b, c := seq<nat>(12, _ => 13), seq<nat>(4, _ => 11), seq<nat>(n - 16, _ => 0);
    ws := a + b + c;
    SumAppend(a, b);
    SumAppend(a + b, c);
    SumOfEqual(a, 13);
    SumOfEqual(b, 11);
    SumOfEqual(c, 0);
    var shares := Shares(ws, 200);
    SumOfEqual(shares[..12], 7);
    SumOfEqual(shares[12..16], 6);
    SumOfEqual(shares[16..], 0);
    SumAppend(shares[..12], shares[12..16]);
    SumAppend(shares[..12] + shares[12..16], shares[16..]);
    assert shares[..12] + shares[12..16] + shares[16..] == shares;
    rst := shares[0 := -1];
  }

  ghost predicate NonNegative(rst: seq<int>) {
    forall i :: 0 <= i < |rst| ==> rst[i] >= 0
  }

  ghost predicate MayResult(n: nat, ws: seq<nat>, rst: seq<int>, k: int) {
    |ws| == n && ws != [] && Sum(ws) > 0 && Adjusts(ws, rst, k)
  }

  /** No list of n weights ends with a negative one if and only if n is at most fifteen. */
  lemma NonNegativeIff(n: nat)
    requires n > 0
    ensures (forall ws, rst, k :: MayResult(n, ws, rst, k) ==> NonNegative(rst)) <==> n <= 15
  {
    if n <= 15 {
      forall ws, rst, k | MayResult(n, ws, rst, k) ensures NonNegative(rst) {
        NoNegativeWeight(ws, rst, k);
      }
    } else {
      var ws, rst := MoreThanFifteenCanGoNegative(n);
      assert MayResult(n, ws, rst, 0) && !NonNegative(rst);
    }
  }
}
