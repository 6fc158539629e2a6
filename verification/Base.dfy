/** Shared vocabulary: optional values and the bounded searches Go code does over slices. */
module Base {

  datatype Option<+T> = None | Some(value: T)

  /** The elements of a sequence, as a set. */
  function Elements<T>(s: seq<T>): set<T> {
    set x | x in s
  }

  lemma SameMap<K, V>(a: map<K, V>, b: map<K, V>)
    requires forall k :: (k in b <==> k in a) && (k in b ==> a[k] == b[k])
    ensures a == b
  {
  }

  ghost predicate Distinct<T>(s: seq<T>) {
    forall i, j :: 0 <= i < j < |s| ==> s[i] != s[j]
  }

  /** The list has every element of the set once, in some order - what ranging over a Go map yields. */
  ghost predicate Enumerates<T>(list: seq<T>, s: set<T>) {
    Distinct(list) && (forall x :: x in list ==> x in s) && forall x :: x in s ==> x in list
  }

  lemma EnumeratesAdd<T>(list: seq<T>, s: set<T>, x: T)
    requires Enumerates(list, s) && x !in s
    ensures Enumerates(list + [x], s + {x})
  {
    var more := list + [x];
    forall i, j | 0 <= i < j < |more| ensures more[i] != more[j] {
      assert more[i] in list;
    }
  }

  lemma {:induction false} EnumeratesCount<T>(list: seq<T>, s: set<T>)
    requires Enumerates(list, s)
    ensures |list| == |s|
  {
    if list == [] {
      assert s == {};
    } else {
      var init, last := list[..|list| - 1], list[|list| - 1];
      assert list == init + [last];
      assert Enumerates(init, s - {last});
      EnumeratesCount(init, s - {last});
    }
  }

  method KeysOf<T(==)>(keys: set<T>) returns (list: seq<T>)
    ensures Enumerates(list, keys)
  {
    var todo := keys;
    list := [];
    while todo != {}
      invariant todo <= keys && Enumerates(list, keys - todo)
      decreases |todo|
    {
      var key :| key in todo;
      EnumeratesAdd(list, keys - todo, key);
      assert keys - (todo - {key}) == keys - todo + {key};
      list, todo := list + [key], todo - {key};
    }
    assert keys - todo == keys;
  }

  /** Any set can be listed. */
  lemma {:induction false} SomeOrder<T>(s: set<T>) returns (list: seq<T>)
    ensures Enumerates(list, s)
  {
    list := [];
    if s != {} {
      var x :| x in s;
      var rest := SomeOrder(s - {x});
      EnumeratesAdd(rest, s - {x}, x);
      assert s - {x} + {x} == s;
      list := rest + [x];
    }
  }

  // ---- strings cut and joined, as Go's strings package does ----

  function Split(s: string, sep: char): (parts: seq<string>)
    ensures |parts| >= 1
    ensures forall part :: part in parts ==> sep !in part
  {
    if s == "" then [""]
    else
      var rest := Split(s[1..], sep);
      if s[0] == sep then [""] + rest else [[s[0]] + rest[0]] + rest[1..]
  }

  function Join(parts: seq<string>, sep: string): string {
    if parts == [] then "" else if |parts| == 1 then parts[0] else parts[0] + sep + Join(parts[1..], sep)
  }

  lemma {:induction false} SplitFirst(x: string, sep: char, rest: string)
    requires sep !in x
    ensures Split(x + [sep] + rest, sep) == [x] + Split(rest, sep)
  {
    if x == "" {
      assert (x + [sep] + rest)[1..] == rest;
    } else {
      SplitFirst(x[1..], sep, rest);
      var s := x + [sep] + rest;
      assert s[0] == x[0] && s[1..] == x[1..] + [sep] + rest;
      assert [x[0]] + x[1..] == x;
    }
  }

  lemma {:induction false} SplitLast(x: string, sep: char)
    requires sep !in x
    ensures Split(x, sep) == [x]
  {
    if x != "" {
      SplitLast(x[1..], sep);
      assert [x[0]] + x[1..] == x;
    }
  }

  /** Joining pieces without the separator and cutting at it gives the pieces back. */
  lemma {:induction false} SplitJoined(parts: seq<string>, sep: char)
    requires parts != [] && forall p :: p in parts ==> sep !in p
    ensures Split(Join(parts, [sep]), sep) == parts
  {
    var first := parts[0];
    assert first in parts;
    if |parts| == 1 {
      SplitLast(first, sep);
    } else {
      var rest := parts[1..];
      SplitJoined(rest, sep);
      var joined := Join(rest, [sep]);
      SplitFirst(first, sep, joined);
      assert parts == [first] + rest;
    }
  }

  lemma {:induction false} SplitKeepsSubset(s: string, sep: char)
    ensures forall part, c :: part in Split(s, sep) && c in part ==> c in s
  {
    if s != "" {
      SplitKeepsSubset(s[1..], sep);
    }
  }
}
