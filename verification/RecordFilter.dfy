/** The in-place filters that keep the records a user may see at the front of the list. */
module RecordFilter {

  /** The authorised records of a list, each as often as it occurs. */
  function Select<T>(records: seq<T>, can: T -> bool): seq<T> {
    if records == [] then []
    else
      var init, last := Select(records[..|records| - 1], can), records[|records| - 1];
      if can(last) then init + [last] else init
  }

  method Swap<T>(records: array<T>, i: nat, j: nat)
    requires i < records.Length && j < records.Length
    modifies records
    ensures multiset(records[..]) == multiset(old(records[..]))
    ensures records[i] == old(records[j]) && records[j] == old(records[i])
    ensures forall k :: 0 <= k < records.Length && k != i && k != j ==> records[k] == old(records[k])
  {
    records[i], records[j] := records[j], records[i];
  }

  /** Drops the unauthorised records by swapping each with the last one still in play. */
  method FilterAuthorized<T>(records: array<T>, can: T -> bool) returns (l: int)
    modifies records
    ensures 0 <= l <= records.Length
    ensures multiset(records[..]) == multiset(old(records[..]))
    ensures forall k :: 0 <= k < l ==> can(records[k])
    ensures forall k :: l <= k < records.Length ==> !can(records[k])
  {
    l := records.Length;
    var i := 0;
    while i < l
      invariant 0 <= i <= l <= records.Length
      invariant multiset(records[..]) == multiset(old(records[..]))
      invariant forall k :: 0 <= k < i ==> can(records[k])
      invariant forall k :: l <= k < records.Length ==> !can(records[k])
      decreases l - i
    {
      if !can(records[i]) {
        Swap(records, l - 1, i);
        i := i - 1;
        l := l - 1;
      }
      i := i + 1;
    }
  }

  lemma {:induction false} SelectCount<T>(records: seq<T>, can: T -> bool, x: T)
    ensures multiset(Select(records, can))[x] == if can(x) then multiset(records)[x] else 0
  {
    if records != [] {
      var init, last := records[..|records| - 1], records[|records| - 1];
      SelectCount(init, can, x);
      assert records == init + [last];
    }
  }

  /** What the filter returns, the first l records of the rearranged list, is exactly the selection. */
  lemma FrontIsSelection<T>(after: seq<T>, before: seq<T>, l: nat, can: T -> bool)
    requires l <= |after| && multiset(after) == multiset(before)
    requires (forall k :: 0 <= k < l ==> can(after[k])) && (forall k :: l <= k < |after| ==> !can(after[k]))
    ensures multiset(after[..l]) == multiset(Select(before, can))
  {
    var front, rest := after[..l], after[l..];
    assert after == front + rest;
    SplitIsSelection(front, rest, before, can);
  }

  lemma SplitIsSelection<T>(front: seq<T>, rest: seq<T>, records: seq<T>, can: T -> bool)
    requires multiset(front) + multiset(rest) == multiset(records)
    requires (forall x :: x in front ==> can(x)) && (forall x :: x in rest ==> !can(x))
    ensures multiset(front) == multiset(Select(records, can))
  {
    forall x | x in multiset(front) + multiset(Select(records, can))
      ensures multiset(front)[x] == multiset(Select(records, can))[x]
    {
      SelectCount(records, can, x);
      assert x in front <==> x in multiset(front);
      assert x in rest <==> x in multiset(rest);
    }
  }
}
