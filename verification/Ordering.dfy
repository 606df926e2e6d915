/** Go's string comparison and the contract of the library's sorting functions
    (`slices.Sort`, `slices.SortFunc`, `slices.Sorted`). */
module Ordering {

  /** `strings.Compare(a, b) <= 0`: Go compares bytes, and UTF-8 bytes order strings
      exactly as their code points do. */
  predicate StrLe(a: string, b: string) {
    a == [] || (b != [] && (a[0] < b[0] || (a[0] == b[0] && StrLe(a[1..], b[1..]))))
  }

  lemma {:induction false} StrLeTotal(a: string, b: string)
    ensures StrLe(a, b) || StrLe(b, a)
  {
    if a != [] && b != [] {
      StrLeTotal(a[1..], b[1..]);
    }
  }

  lemma {:induction false} StrLeAntisymmetric(a: string, b: string)
    requires StrLe(a, b) && StrLe(b, a)
    ensures a == b
  {
    if a != [] {
      StrLeAntisymmetric(a[1..], b[1..]);
      assert a == [a[0]] + a[1..];
      assert b == [b[0]] + b[1..];
    }
  }

  lemma {:induction false} StrLeTransitive(a: string, b: string, c: string)
    requires StrLe(a, b) && StrLe(b, c)
    ensures StrLe(a, c)
  {
    if a != [] && a[0] == b[0] == c[0] {
      StrLeTransitive(a[1..], b[1..], c[1..]);
    }
  }

  /** What a comparison function must satisfy for a sort to be meaningful. Two elements
      may compare equal without being equal. */
  ghost predicate TotalPreorder<T(!new)>(le: (T, T) -> bool) {
    && (forall x, y :: le(x, y) || le(y, x))
    && (forall x, y, z :: le(x, y) && le(y, z) ==> le(x, z))
  }

  lemma StrLeTotalPreorder()
    ensures TotalPreorder(StrLe)
  {
    forall x, y ensures StrLe(x, y) || StrLe(y, x) { StrLeTotal(x, y); }
    forall x, y, z | StrLe(x, y) && StrLe(y, z) ensures StrLe(x, z) { StrLeTransitive(x, y, z); }
  }

  ghost predicate SortedBy<T(!new)>(le: (T, T) -> bool, s: seq<T>) {
    forall i, j :: 0 <= i < j < |s| ==> le(s[i], s[j])
  }

  /** `r` is a result that sorting `s` may give: the sort need not be stable, so equal keys
      may come out in any order. */
  ghost predicate SortOf<T(!new)>(le: (T, T) -> bool, r: seq<T>, s: seq<T>) {
    SortedBy(le, r) && multiset(r) == multiset(s)
  }

  function Insert<T>(le: (T, T) -> bool, x: T, s: seq<T>): seq<T> {
    if s == [] || le(x, s[0]) then [x] + s else [s[0]] + Insert(le, x, s[1..])
  }

  lemma {:induction false} InsertMultiset<T>(le: (T, T) -> bool, x: T, s: seq<T>)
    ensures multiset(Insert(le, x, s)) == multiset{x} + multiset(s)
  {
    if s != [] && !le(x, s[0]) {
      InsertMultiset(le, x, s[1..]);
      TailMultiset(s);
    }
  }

  lemma SortedPrepend<T(!new)>(le: (T, T) -> bool, x: T, s: seq<T>)
    requires SortedBy(le, s) && forall y :: y in s ==> le(x, y)
    ensures SortedBy(le, [x] + s)
  {
    var r := [x] + s;
    forall i, j | 0 <= i < j < |r| ensures le(r[i], r[j]) {
      assert r[j] == s[j - 1] && s[j - 1] in s;
      if i > 0 {
        assert r[i] == s[i - 1];
      }
    }
  }

  lemma {:induction false} InsertSorts<T(!new)>(le: (T, T) -> bool, x: T, s: seq<T>)
    requires TotalPreorder(le) && SortedBy(le, s)
    ensures SortedBy(le, Insert(le, x, s))
    ensures forall y :: y in Insert(le, x, s) <==> y == x || y in s
  {
    if s == [] {
    } else if le(x, s[0]) {
      forall y | y in s ensures le(x, y) {
        var k :| 0 <= k < |s| && s[k] == y;
        assert le(s[0], y);
      }
      SortedPrepend(le, x, s);
    } else {
      TailMultiset(s);
      InsertSorts(le, x, s[1..]);
      forall y | y in s[1..] ensures le(s[0], y) {
        var k :| 0 <= k < |s[1..]| && s[1..][k] == y;
        assert le(s[0], s[k + 1]);
      }
      SortedPrepend(le, s[0], Insert(le, x, s[1..]));
    }
  }

  function Sorted<T>(le: (T, T) -> bool, s: seq<T>): seq<T> {
    if s == [] then [] else Insert(le, s[0], Sorted(le, s[1..]))
  }

  lemma {:induction false} SortedIsSort<T(!new)>(le: (T, T) -> bool, s: seq<T>)
    requires TotalPreorder(le)
    ensures SortOf(le, Sorted(le, s), s)
  {
    if s != [] {
      SortedIsSort(le, s[1..]);
      InsertSorts(le, s[0], Sorted(le, s[1..]));
      InsertMultiset(le, s[0], Sorted(le, s[1..]));
      TailMultiset(s);
    }
  }

  /** The library sort, known to its callers by its contract alone. */
  method SortFunc<T(!new)>(s: seq<T>, le: (T, T) -> bool) returns (r: seq<T>)
    requires TotalPreorder(le)
    ensures SortOf(le, r, s)
  {
    SortedIsSort(le, s);
    r := Sorted(le, s);
  }

  /** Elements that compare equal are equal, so a sort has one result only. */
  ghost predicate Distinguishes<T(!new)>(le: (T, T) -> bool, s: seq<T>) {
    forall x, y :: x in s && y in s && le(x, y) && le(y, x) ==> x == y
  }

  lemma TailMultiset<T>(s: seq<T>)
    requires s != []
    ensures s == [s[0]] + s[1..]
    ensures multiset(s) == multiset{s[0]} + multiset(s[1..])
    ensures multiset(s[1..]) == multiset(s) - multiset{s[0]}
    ensures forall x :: x in s[1..] ==> x in s
  {
    assert s == [s[0]] + s[1..];
  }

  /** A prefix that is one element longer. */
  lemma PrefixNext<T>(s: seq<T>, i: nat)
    requires i < |s|
    ensures s[..i + 1] == s[..i] + [s[i]]
  {
  }

  /** Elements of `b` overwritten by those of `a` from the front: none of them, and all. */
  lemma OverwriteEnds<T>(a: seq<T>, b: seq<T>)
    requires |a| == |b|
    ensures a[..0] + b[0..] == b && a[..|b|] + b[|b|..] == a
  {
  }

  /** Elements of `b` overwritten by those of `a` from the front, one more. */
  lemma OverwriteNext<T>(a: seq<T>, b: seq<T>, i: nat)
    requires i < |a| == |b|
    ensures (a[..i] + b[i..])[i] == b[i]
    ensures (a[..i] + b[i..])[i := a[i]] == a[..i + 1] + b[i + 1..]
  {
  }

  /** A sequence and its last element. */
  lemma LastElement<T>(s: seq<T>)
    requires s != []
    ensures s == s[..|s| - 1] + [s[|s| - 1]]
    ensures forall x :: x in s <==> x in s[..|s| - 1] || x == s[|s| - 1]
  {
    assert s == s[..|s| - 1] + [s[|s| - 1]];
  }

  lemma SortHeads<T(!new)>(le: (T, T) -> bool, a: seq<T>, b: seq<T>)
    requires SortedBy(le, a) && SortedBy(le, b)
    requires multiset(a) == multiset(b)
    requires Distinguishes(le, a) && a != []
    ensures b != [] && a[0] == b[0]
  {
    SameElements(a, b);
    assert a[0] in b && b[0] in a;
    var i :| 0 <= i < |b| && b[i] == a[0];
    var j :| 0 <= j < |a| && a[j] == b[0];
    if i > 0 && j > 0 {
      assert le(b[0], b[i]) && le(a[0], a[j]);
    }
  }

  /** Sorting is canonical: when the comparison tells the elements apart, every two sorts
      of the same elements agree, whatever order those elements came in. */
  lemma {:induction false} SortUnique<T(!new)>(le: (T, T) -> bool, a: seq<T>, b: seq<T>)
    requires SortedBy(le, a) && SortedBy(le, b)
    requires multiset(a) == multiset(b)
    requires Distinguishes(le, a)
    ensures a == b
  {
    SameElements(a, b);
    if a != [] {
      SortHeads(le, a, b);
      TailMultiset(a);
      TailMultiset(b);
      SortUnique(le, a[1..], b[1..]);
    }
  }

  lemma SortIsSorted<T(!new)>(le: (T, T) -> bool, r: seq<T>, s: seq<T>)
    requires TotalPreorder(le) && SortOf(le, r, s) && Distinguishes(le, s)
    ensures r == Sorted(le, s)
  {
    SortedIsSort(le, s);
    SameElements(r, s);
    SortUnique(le, r, Sorted(le, s));
  }

  lemma StringSortUnique(r: seq<string>, s: seq<string>)
    requires SortOf(StrLe, r, s)
    ensures r == Sorted(StrLe, s)
  {
    StrLeTotalPreorder();
    forall x, y | x in s && y in s && StrLe(x, y) && StrLe(y, x) ensures x == y {
      StrLeAntisymmetric(x, y);
    }
    SortIsSorted(StrLe, r, s);
  }

  /** Sequences with equal multisets have the same members and the same length. */
  lemma SameElements<T>(a: seq<T>, b: seq<T>)
    requires multiset(a) == multiset(b)
    ensures |a| == |b|
    ensures forall x :: x in a <==> x in b
  {
    assert |a| == |multiset(a)| && |b| == |multiset(b)|;
    forall x ensures x in a <==> x in b {
      assert x in a <==> x in multiset(a);
      assert x in b <==> x in multiset(b);
    }
  }

  /** The first element of `a` stands somewhere in every permutation of `a`; taking it out of
      both leaves permutations of each other. */
  lemma TakeOut<T>(a: seq<T>, b: seq<T>) returns (k: nat)
    requires a != [] && multiset(a) == multiset(b)
    ensures k < |b| && b[k] == a[0]
    ensures b == b[..k] + ([b[k]] + b[k + 1..])
    ensures multiset(a[1..]) == multiset(b[..k] + b[k + 1..])
  {
    SameElements(a, b);
    assert a[0] in b;
    k :| 0 <= k < |b| && b[k] == a[0];
    TailMultiset(a);
    assert b == b[..k] + ([b[k]] + b[k + 1..]);
    assert multiset(b[..k] + b[k + 1..]) == multiset(b) - multiset{b[k]};
  }

  ghost predicate NoDuplicates<T(!new)>(s: seq<T>) {
    forall i, j :: 0 <= i < j < |s| ==> s[i] != s[j]
  }

  lemma AddToSet<T(!new)>(x: T, rest: set<T>)
    requires x !in rest
    ensures multiset({x} + rest) == multiset{x} + multiset(rest)
    ensures |{x} + rest| == 1 + |rest|
  {
  }

  lemma MembersOf<T(!new)>(s: seq<T>)
    requires s != []
    ensures (set x | x in s) == {s[0]} + (set x | x in s[1..])
  {
    TailMultiset(s);
    assert forall x :: x in s <==> x == s[0] || x in s[1..];
  }

  lemma {:induction false} NoDuplicatesMultiset<T(!new)>(s: seq<T>)
    requires NoDuplicates(s)
    ensures multiset(s) == multiset(set x | x in s)
    ensures |set x | x in s| == |s|
  {
    if s != [] {
      var first, rest, members := s[0], s[1..], set x | x in s[1..];
      assert forall k :: 0 <= k < |rest| ==> rest[k] == s[k + 1] != first;
      NoDuplicatesMultiset(rest);
      TailMultiset(s);
      MembersOf(s);
      AddToSet(first, members);
    }
  }

  lemma NoDuplicatesAppend<T(!new)>(s: seq<T>, x: T)
    requires NoDuplicates(s) && x !in s
    ensures NoDuplicates(s + [x])
  {
    forall i, j | 0 <= i < j < |s + [x]| ensures (s + [x])[i] != (s + [x])[j] {
      assert s[i] in s;
    }
  }

  lemma NoDuplicatesPrepend<T(!new)>(x: T, s: seq<T>)
    ensures NoDuplicates([x] + s) <==> NoDuplicates(s) && x !in s
  {
    var all := [x] + s;
    if NoDuplicates(all) {
      assert x == all[0];
      forall i, j | 0 <= i < j < |s| ensures s[i] != s[j] {
        assert all[i + 1] == s[i] && all[j + 1] == s[j];
      }
      forall k | 0 <= k < |s| ensures s[k] != x {
        assert all[k + 1] == s[k];
      }
    }
    if NoDuplicates(s) && x !in s {
      forall i, j | 0 <= i < j < |all| ensures all[i] != all[j] {
        assert all[j] == s[j - 1] && s[j - 1] in s;
        if i > 0 {
          assert all[i] == s[i - 1];
        }
      }
    }
  }

  lemma RepeatedTwice<T>(s: seq<T>, i: nat, j: nat)
    requires i < j < |s| && s[i] == s[j]
    ensures multiset(s)[s[i]] >= 2
  {
    assert s == s[..i] + [s[i]] + s[i + 1..j] + [s[j]] + s[j + 1..];
  }

  /** Having no duplicates is a property of the multiset. */
  lemma NoDuplicatesPermutation<T(!new)>(a: seq<T>, b: seq<T>)
    requires NoDuplicates(a) && multiset(a) == multiset(b)
    ensures NoDuplicates(b)
  {
    NoDuplicatesMultiset(a);
    forall i, j | 0 <= i < j < |b| ensures b[i] != b[j] {
      if b[i] == b[j] {
        RepeatedTwice(b, i, j);
        assert false;
      }
    }
  }

  /** `slices.Sorted(maps.Keys(m))`: the keys come out of the map in any order. */
  method SortedKeys(keys: set<string>) returns (r: seq<string>)
    ensures SortedBy(StrLe, r) && NoDuplicates(r)
    ensures forall x :: x in r <==> x in keys
  {
    var unsorted := [];
    var left := keys;
    while left != {}
      invariant left <= keys
      invariant forall x :: x in unsorted <==> x in keys - left
      invariant NoDuplicates(unsorted)
      decreases left
    {
      var k :| k in left;
      NoDuplicatesAppend(unsorted, k);
      unsorted := unsorted + [k];
      left := left - {k};
    }
    StrLeTotalPreorder();
    r := SortFunc(unsorted, StrLe);
    SameElements(r, unsorted);
    NoDuplicatesPermutation(unsorted, r);
  }

  lemma {:induction false} LeastString(keys: set<string>) returns (least: string)
    requires keys != {}
    ensures least in keys && forall x :: x in keys ==> StrLe(least, x)
    decreases keys
  {
    var k :| k in keys;
    StrLeTotal(k, k);
    if keys == {k} {
      least := k;
    } else {
      var other := LeastString(keys - {k});
      StrLeTotal(k, other);
      least := if StrLe(k, other) then k else other;
      forall x | x in keys ensures StrLe(least, x) {
        if x != k && least == k {
          StrLeTransitive(k, other, x);
        }
      }
    }
  }
}
