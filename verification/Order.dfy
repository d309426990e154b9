// The byte order of Go strings, and sorting by it. A string is a sequence of code points; for valid UTF-8 the
// order of the code points is the order of the bytes, which is how Go compares strings.
module Order {

  // a < b, as Go compares strings.
  predicate Less(a: string, b: string)
    decreases |a|
  {
    |b| > 0 && (|a| == 0 || a[0] < b[0] || (a[0] == b[0] && Less(a[1..], b[1..])))
  }

  lemma {:induction false} LessIrreflexive(a: string)
    ensures !Less(a, a)
    decreases |a|
  {
    if |a| > 0 { LessIrreflexive(a[1..]); }
  }

  lemma {:induction false} LessTransitive(a: string, b: string, c: string)
    requires Less(a, b) && Less(b, c)
    ensures Less(a, c)
    decreases |a|
  {
    if |a| > 0 && a[0] == b[0] == c[0] {
      LessTransitive(a[1..], b[1..], c[1..]);
    }
  }

  lemma {:induction false} LessTotal(a: string, b: string)
    ensures a == b || Less(a, b) || Less(b, a)
    decreases |a|
  {
    if |a| > 0 && |b| > 0 && a[0] == b[0] {
      LessTotal(a[1..], b[1..]);
      if a[1..] == b[1..] {
        assert a == [a[0]] + a[1..];
        assert b == [b[0]] + b[1..];
      }
    }
  }

  // A common prefix decides nothing.
  lemma {:induction false} LessAfterPrefix(p: string, a: string, b: string)
    ensures Less(p + a, p + b) <==> Less(a, b)
    decreases |p|
  {
    if |p| == 0 {
      assert p + a == a && p + b == b;
    } else {
      LessAfterPrefix(p[1..], a, b);
      assert (p + a)[1..] == p[1..] + a;
      assert (p + b)[1..] == p[1..] + b;
    }
  }

  // The orders that a sort can use, given as functions.
  ghost predicate StrictOrder<T(!new)>(before: (T, T) -> bool) {
    && (forall x :: !before(x, x))
    && (forall x, y, z :: before(x, y) && before(y, z) ==> before(x, z))
  }

  // A strict weak order: elements that it does not tell apart stand alike to every other.
  ghost predicate StrictWeak<T(!new)>(before: (T, T) -> bool) {
    StrictOrder(before) && forall x, y, z :: before(x, z) ==> before(x, y) || before(y, z)
  }

  ghost predicate StrictTotal<T(!new)>(before: (T, T) -> bool) {
    StrictOrder(before) && forall x, y :: x == y || before(x, y) || before(y, x)
  }

  ghost predicate Increasing<T>(before: (T, T) -> bool, s: seq<T>) {
    forall i, j | 0 <= i < j < |s| :: before(s[i], s[j])
  }

  // A strict order puts a set in one sequence only.
  lemma {:induction false} IncreasingIsUnique<T(!new)>(before: (T, T) -> bool, s: seq<T>, t: seq<T>)
    requires StrictOrder(before)
    requires Increasing(before, s) && Increasing(before, t)
    requires forall x :: x in s <==> x in t
    ensures s == t
    decreases |s|
  {
    assert |t| > 0 ==> t[0] in t;
    if |s| > 0 {
      assert s[0] in s;
      assert s[0] in t;
      assert t[0] in t;
      assert t[0] in s;
      var i :| 0 <= i < |t| && t[i] == s[0];
      var j :| 0 <= j < |s| && s[j] == t[0];
      assert i == 0;
      forall x
        ensures x in s[1..] <==> x in t[1..]
      {
        if x in s[1..] {
          assert before(s[0], x);
          assert x in t;
          var k :| 0 <= k < |t| && t[k] == x;
          assert t[1..][k - 1] == x;
        }
        if x in t[1..] {
          assert before(t[0], x);
          assert x in s;
          var k :| 0 <= k < |s| && s[k] == x;
          assert s[1..][k - 1] == x;
        }
      }
      IncreasingIsUnique(before, s[1..], t[1..]);
      assert s == [s[0]] + s[1..];
      assert t == [t[0]] + t[1..];
    }
  }

  const LESS: (string, string) -> bool := (a, b) => Less(a, b)

  lemma LessIsStrictTotal()
    ensures StrictTotal(LESS)
  {
    forall x ensures !LESS(x, x) { LessIrreflexive(x); }
    forall x, y, z | LESS(x, y) && LESS(y, z) ensures LESS(x, z) { LessTransitive(x, y, z); }
    forall x, y ensures x == y || LESS(x, y) || LESS(y, x) { LessTotal(x, y); }
  }

  // The keys of a map, as Go collects and sorts them: each once, in order.
  ghost predicate SortedListOf(list: seq<string>, keys: set<string>) {
    && (forall i, j | 0 <= i < j < |list| :: Less(list[i], list[j]))
    && (forall key :: key in list <==> key in keys)
  }

  lemma SortedListIsUnique(list: seq<string>, other: seq<string>, keys: set<string>)
    requires SortedListOf(list, keys) && SortedListOf(other, keys)
    ensures list == other
  {
    LessIsStrictTotal();
    IncreasingIsUnique(LESS, list, other);
  }

  // ---- Sorting ----

  ghost predicate SortedBy<T>(before: (T, T) -> bool, s: seq<T>) {
    forall i, j | 0 <= i < j < |s| :: !before(s[j], s[i])
  }

  // Puts one element into a sorted sequence, after the elements that do not come after it.
  method InsertInOrder<T(!new)>(list: seq<T>, next: T, before: (T, T) -> bool) returns (grown: seq<T>)
    requires StrictWeak(before) && SortedBy(before, list)
    ensures SortedBy(before, grown)
    ensures multiset(grown) == multiset(list) + multiset{next}
  {
    var at := |list|;
    while at > 0 && before(next, list[at - 1])
      invariant 0 <= at <= |list|
      invariant forall i | at <= i < |list| :: before(next, list[i])
    {
      at := at - 1;
    }
    InsertedIsSorted(list, next, before, at);
    grown := list[..at] + [next] + list[at..];
    assert list == list[..at] + list[at..];
  }

  lemma {:induction false} InsertedIsSorted<T(!new)>(list: seq<T>, next: T, before: (T, T) -> bool, at: nat)
    requires StrictWeak(before) && SortedBy(before, list) && at <= |list|
    requires forall i | at <= i < |list| :: before(next, list[i])
    requires at > 0 ==> !before(next, list[at - 1])
    ensures SortedBy(before, list[..at] + [next] + list[at..])
  {
    forall i | 0 <= i < at
      ensures !before(next, list[i])
    {
      assert i == at - 1 || !before(list[at - 1], list[i]);
    }
  }

  // sort.Slice and sort.SliceStable, in place.
  method SortInPlace<T(!new)>(a: array<T>, before: (T, T) -> bool)
    requires StrictWeak(before)
    modifies a
    ensures SortedBy(before, a[..])
    ensures multiset(a[..]) == multiset(old(a[..]))
  {
    var list: seq<T> := [];
    for n := 0 to a.Length
      invariant SortedBy(before, list)
      invariant multiset(list) == multiset(a[..n])
      invariant a[..] == old(a[..])
    {
      assert a[..n + 1] == a[..n] + [a[n]];
      list := InsertInOrder(list, a[n], before);
    }
    assert a[..a.Length] == a[..];
    assert |list| == |multiset(list)| == |multiset(a[..])| == a.Length;
    forall i | 0 <= i < a.Length { a[i] := list[i]; }
    assert a[..] == list;
  }

  method Sort<T(!new)>(list: seq<T>, before: (T, T) -> bool) returns (sorted: seq<T>)
    requires StrictWeak(before)
    ensures SortedBy(before, sorted)
    ensures multiset(sorted) == multiset(list)
  {
    var a := new T[|list|](i requires 0 <= i < |list| => list[i]);
    assert a[..] == list;
    SortInPlace(a, before);
    sorted := a[..];
  }

  // ---- Sorting by a text of each element ----

  function ByKey<T>(key: T -> string): (T, T) -> bool {
    (a, b) => Less(key(a), key(b))
  }

  const ITSELF: string -> string := text => text

  // No two elements have one key.
  ghost predicate OneEach<T>(key: T -> string, list: seq<T>) {
    forall i, j | 0 <= i < j < |list| :: key(list[i]) != key(list[j])
  }

  lemma {:induction false} ByKeyIsStrictWeak<T(!new)>(key: T -> string)
    ensures StrictWeak(ByKey(key))
  {
    var before := ByKey(key);
    forall x ensures !before(x, x) { LessIrreflexive(key(x)); }
    forall x, y, z | before(x, y) && before(y, z) ensures before(x, z) { LessTransitive(key(x), key(y), key(z)); }
    forall x, y, z | before(x, z) ensures before(x, y) || before(y, z)
    {
      LessTotal(key(x), key(y));
      if Less(key(y), key(x)) { LessTransitive(key(y), key(x), key(z)); }
    }
  }

  // Where each key occurs once, the sorted list is the only one there is.
  method SortByKey<T(!new)>(list: seq<T>, key: T -> string) returns (sorted: seq<T>)
    ensures SortedBy(ByKey(key), sorted)
    ensures multiset(sorted) == multiset(list)
    ensures |sorted| == |list| && forall x :: x in sorted <==> x in list
    ensures OneEach(key, list) ==> OneEach(key, sorted) && Increasing(ByKey(key), sorted)
  {
    ByKeyIsStrictWeak(key);
    sorted := Sort(list, ByKey(key));
    SameElements(sorted, list);
    assert |sorted| == |multiset(sorted)| == |multiset(list)| == |list|;
    if OneEach(key, list) {
      OneEachStays(key, list, sorted);
      SortedIsIncreasing(key, sorted);
    }
  }

  lemma {:induction false} SortedIsIncreasing<T(!new)>(key: T -> string, list: seq<T>)
    requires SortedBy(ByKey(key), list) && OneEach(key, list)
    ensures Increasing(ByKey(key), list)
  {
    forall i, j | 0 <= i < j < |list|
      ensures ByKey(key)(list[i], list[j])
    {
      assert !ByKey(key)(list[j], list[i]);
      LessTotal(key(list[i]), key(list[j]));
    }
  }

  lemma {:induction false} TwiceIsTwo<T>(s: seq<T>, i: nat, j: nat)
    requires i < j < |s| && s[i] == s[j]
    ensures multiset(s)[s[i]] >= 2
  {
    assert s == s[..j] + s[j..];
    assert s[..j][i] in multiset(s[..j]) && s[j..][0] in multiset(s[j..]);
  }

  lemma {:induction false} OnceIsOne<T>(s: seq<T>, x: T)
    requires forall i, j | 0 <= i < j < |s| :: s[i] != s[j]
    ensures multiset(s)[x] <= 1
  {
    if x in multiset(s) {
      var i :| 0 <= i < |s| && s[i] == x;
      assert s == s[..i] + [x] + s[i + 1..];
      assert x !in s[..i] && x !in s[i + 1..];
    }
  }

  // Another order of the same elements has each key once too.
  lemma {:induction false} OneEachStays<T(!new)>(key: T -> string, list: seq<T>, other: seq<T>)
    requires OneEach(key, list) && multiset(list) == multiset(other)
    ensures OneEach(key, other)
  {
    SameElements(list, other);
    forall i, j | 0 <= i < j < |other|
      ensures key(other[i]) != key(other[j])
    {
      if other[i] == other[j] {
        TwiceIsTwo(other, i, j);
        OnceIsOne(list, other[i]);
      } else {
        assert other[i] in list && other[j] in list;
      }
    }
  }

  lemma {:induction false} SameElements<T(!new)>(a: seq<T>, b: seq<T>)
    requires multiset(a) == multiset(b)
    ensures forall x :: x in a <==> x in b
  {
    forall x
      ensures x in a <==> x in b
    {
      assert x in a <==> x in multiset(a);
      assert x in b <==> x in multiset(b);
    }
  }

  lemma {:induction false} SortedListExists(keys: set<string>)
    ensures exists list :: SortedListOf(list, keys)
    decreases |keys|
  {
    if keys == {} {
      assert SortedListOf([], keys);
    } else {
      var key := LastOf(keys);
      SortedListExists(keys - {key});
      var list :| SortedListOf(list, keys - {key});
      LastGoesLast(list, key, keys);
    }
  }

  lemma {:induction false} LastGoesLast(list: seq<string>, key: string, keys: set<string>)
    requires key in keys && SortedListOf(list, keys - {key})
    requires forall other | other in keys && other != key :: Less(other, key)
    ensures SortedListOf(list + [key], keys)
  {
    var grown := list + [key];
    forall i, j | 0 <= i < j < |grown|
      ensures Less(grown[i], grown[j])
    {
      assert grown[i] == list[i] && list[i] in list;
    }
    forall x
      ensures x in grown <==> x in keys
    {
      assert x in grown <==> x in list || x == key;
    }
  }

  lemma {:induction false} LastOf(keys: set<string>) returns (last: string)
    requires keys != {}
    ensures last in keys && forall key | key in keys && key != last :: Less(key, last)
    decreases |keys|
  {
    last :| last in keys;
    if keys != {last} {
      var other := LastOf(keys - {last});
      LessTotal(last, other);
      forall key | key in keys && key != last && key != other && Less(other, last)
        ensures Less(key, last)
      {
        LessTransitive(key, other, last);
      }
      if Less(last, other) { last := other; }
    }
  }

  // The keys in order.
  ghost function KeysInOrder(keys: set<string>): (list: seq<string>)
    ensures SortedListOf(list, keys)
  {
    SortedListExists(keys);
    var list :| SortedListOf(list, keys);
    list
  }

  // The keys of a map, sorted.
  method SortedKeys(keys: set<string>) returns (list: seq<string>)
    ensures SortedListOf(list, keys) && list == KeysInOrder(keys)
  {
    var some: seq<string> := [];
    var left := keys;
    while left != {}
      invariant left <= keys
      invariant forall key :: key in some <==> key in keys - left
      invariant OneEach(ITSELF, some)
      decreases |left|
    {
      var key :| key in left;
      left := left - {key};
      some := some + [key];
    }
    list := SortByKey(some, ITSELF);
    forall i, j | 0 <= i < j < |list|
      ensures Less(list[i], list[j])
    {
      assert ByKey(ITSELF)(list[i], list[j]);
    }
    SortedListIsUnique(list, KeysInOrder(keys), keys);
  }

  // ---- Sorting and dropping repeats ----

  lemma TotalIsWeak<T(!new)>(before: (T, T) -> bool)
    requires StrictTotal(before)
    ensures StrictWeak(before)
  {
  }

  // Drops each repeat of a sorted array in place: what is kept is written over the front of the same array, while
  // the rest is still read.
  method DropRepeats(a: array<string>, before: (string, string) -> bool) returns (kept: nat)
    requires StrictTotal(before) && SortedBy(before, a[..])
    modifies a
    ensures kept <= a.Length
    ensures Increasing(before, a[..kept])
    ensures forall x :: x in a[..kept] <==> x in old(a[..])
  {
    ghost var list := a[..];
    kept := 0;
    for i := 0 to a.Length
      invariant 0 <= kept <= i
      invariant kept > 0 <==> i > 0
      invariant Increasing(before, a[..kept])
      invariant i > 0 ==> a[kept - 1] == list[i - 1] == a[i - 1]
      invariant forall k | i <= k < a.Length :: a[k] == list[k]
      invariant forall x :: x in a[..kept] <==> x in list[..i]
    {
      assert list[..i + 1] == list[..i] + [list[i]];
      if i == 0 || a[i] != a[i - 1] {
        ghost var was := a[..kept];
        KeepsIncreasing(before, list, was, i);
        a[kept] := a[i];
        kept := kept + 1;
        assert a[..kept] == was + [list[i]];
      } else {
        assert list[..i][i - 1] == list[i];
      }
    }
    assert list[..|list|] == list;
  }

  // The next element of a sorted list comes after all that were kept, when it differs from the last.
  lemma KeepsIncreasing(before: (string, string) -> bool, list: seq<string>, kept: seq<string>, i: nat)
    requires StrictTotal(before) && SortedBy(before, list) && i < |list|
    requires Increasing(before, kept)
    requires kept != [] <==> i > 0
    requires i > 0 ==> kept[|kept| - 1] == list[i - 1] != list[i]
    ensures Increasing(before, kept + [list[i]])
  {
    if i > 0 {
      assert before(list[i - 1], list[i]);
    }
  }

  method SortUnique(list: seq<string>, before: (string, string) -> bool) returns (unique: seq<string>)
    requires StrictTotal(before)
    ensures Increasing(before, unique)
    ensures forall x :: x in unique <==> x in list
  {
    var sorted := new string[|list|](i requires 0 <= i < |list| => list[i]);
    assert sorted[..] == list;
    TotalIsWeak(before);
    SortInPlace(sorted, before);
    SameElements(sorted[..], list);
    var kept := DropRepeats(sorted, before);
    unique := sorted[..kept];
  }
}
