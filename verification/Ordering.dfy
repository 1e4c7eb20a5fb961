/**
 The byte order on strings that the service sorts by, and what sorting determines.
 Comparing code points agrees with comparing the bytes of their UTF-8 encoding.
 */
module Ordering {

  predicate Less(a: string, b: string) {
    if |b| == 0 then false
    else if |a| == 0 then true
    else a[0] < b[0] || (a[0] == b[0] && Less(a[1..], b[1..]))
  }

  lemma LessIrreflexive(a: string)
    ensures !Less(a, a)
  {
  }

  lemma {:induction false} LessTransitive(a: string, b: string, c: string)
    requires Less(a, b) && Less(b, c)
    ensures Less(a, c)
  {
    if |a| > 0 && a[0] == b[0] && b[0] == c[0] {
      LessTransitive(a[1..], b[1..], c[1..]);
    }
  }

  lemma {:induction false} LessTotal(a: string, b: string)
    ensures a == b || Less(a, b) || Less(b, a)
  {
    if |a| > 0 && |b| > 0 && a[0] == b[0] {
      LessTotal(a[1..], b[1..]);
      if a[1..] == b[1..] {
        assert a == [a[0]] + a[1..] && b == [b[0]] + b[1..];
      }
    }
  }

  /** The first difference decides, and a proper prefix comes first. */
  lemma {:induction false} LessByFirstDifference(p: string, a: string, b: string)
    ensures Less(p + a, p + b) <==> Less(a, b)
    ensures |a| > 0 && |b| > 0 && a[0] != b[0] ==> (Less(p + a, p + b) <==> a[0] < b[0])
    ensures |a| == 0 ==> (Less(p + a, p + b) <==> |b| > 0)
  {
    if |p| == 0 {
      assert p + a == a && p + b == b;
    } else {
      LessByFirstDifference(p[1..], a, b);
      assert (p + a)[1..] == p[1..] + a && (p + b)[1..] == p[1..] + b;
    }
  }

  /** What sort.Slice guarantees: no element is smaller than an earlier one. */
  ghost predicate Sorted<T>(s: seq<T>, key: T -> string) {
    forall i, j :: 0 <= i < j < |s| ==> !Less(key(s[j]), key(s[i]))
  }

  ghost predicate DistinctKeys<T, K>(s: seq<T>, key: T -> K) {
    forall i, j :: 0 <= i < j < |s| ==> key(s[i]) != key(s[j])
  }

  /** Different values have different keys. */
  ghost predicate Untied<T(!new)>(s: seq<T>, key: T -> string) {
    forall x, y :: x in s && y in s && key(x) == key(y) ==> x == y
  }

  lemma EmptyOrMember<T>(s: seq<T>)
    ensures s == [] || s[0] in s
  {
  }

  lemma SameHead<T(!new)>(a: seq<T>, b: seq<T>, key: T -> string)
    requires Sorted(a, key) && Sorted(b, key) && Untied(a, key)
    requires |a| > 0 && |b| > 0 && a[0] in b && b[0] in a
    ensures a[0] == b[0]
  {
    var j :| 0 <= j < |b| && b[j] == a[0];
    var i :| 0 <= i < |a| && a[i] == b[0];
    LessTotal(key(a[0]), key(b[0]));
  }

  lemma SameTail<T>(a: seq<T>, b: seq<T>)
    requires multiset(a) == multiset(b) && |a| > 0 && |b| > 0 && a[0] == b[0]
    ensures multiset(a[1..]) == multiset(b[1..])
  {
    assert a == [a[0]] + a[1..] && b == [b[0]] + b[1..];
    assert multiset(a[1..]) == multiset(a) - multiset{a[0]} && multiset(b[1..]) == multiset(b) - multiset{b[0]};
  }

  /** Without ties among different values, a sorted sequence is determined by its elements. */
  lemma {:induction false} SortedUnique<T(!new)>(a: seq<T>, b: seq<T>, key: T -> string)
    requires Sorted(a, key) && Sorted(b, key) && multiset(a) == multiset(b) && Untied(a, key)
    ensures a == b
  {
    SameMembers(a, b);
    EmptyOrMember(a);
    EmptyOrMember(b);
    if |a| > 0 {
      SameHead(a, b, key);
      SameTail(a, b);
      SortedUnique(a[1..], b[1..], key);
      assert a == [a[0]] + a[1..] && b == [b[0]] + b[1..];
    }
  }

  /** Where an element goes in a sorted sequence. */
  function Place<T>(s: seq<T>, key: T -> string, x: T): (p: nat)
    ensures p <= |s|
    ensures forall j :: 0 <= j < p ==> !Less(key(x), key(s[j]))
    ensures p < |s| ==> Less(key(x), key(s[p]))
  {
    if |s| == 0 || Less(key(x), key(s[0])) then 0 else Place(s[1..], key, x) + 1
  }

  lemma InsertSorted<T>(s: seq<T>, key: T -> string, x: T)
    requires Sorted(s, key)
    ensures var p := Place(s, key, x); var t := s[..p] + [x] + s[p..];
      Sorted(t, key) && multiset(t) == multiset(s) + multiset{x}
  {
    hide Less, Place;
    var p := Place(s, key, x);
    forall j | p <= j < |s|
      ensures !Less(key(s[j]), key(x))
    {
      if Less(key(s[j]), key(x)) {
        LessTransitive(key(s[j]), key(x), key(s[p]));
        LessIrreflexive(key(s[p]));
      }
    }
    assert s == s[..p] + s[p..];
  }

  /** sort.Slice: some sorted permutation; equal keys may come in any order. */
  method SortSlice<T>(s: seq<T>, key: T -> string) returns (t: seq<T>)
    ensures Sorted(t, key) && multiset(t) == multiset(s)
  {
    t := [];
    for i := 0 to |s|
      invariant Sorted(t, key) && multiset(t) == multiset(s[..i])
    {
      InsertSorted(t, key, s[i]);
      var p := Place(t, key, s[i]);
      assert s[..i + 1] == s[..i] + [s[i]];
      t := t[..p] + [s[i]] + t[p..];
    }
    assert s[..|s|] == s;
  }

  lemma {:induction false} SortedPermutation<T>(s: seq<T>, key: T -> string) returns (t: seq<T>)
    ensures Sorted(t, key) && multiset(t) == multiset(s)
  {
    if |s| == 0 {
      t := [];
    } else {
      var x := s[|s| - 1];
      var front := SortedPermutation(s[..|s| - 1], key);
      InsertSorted(front, key, x);
      var p := Place(front, key, x);
      t := front[..p] + [x] + front[p..];
      assert s == s[..|s| - 1] + [x];
    }
  }

  lemma SameMembers<T>(a: seq<T>, b: seq<T>)
    requires multiset(a) == multiset(b)
    ensures |a| == |b|
    ensures forall x :: x in a <==> x in b
  {
    forall x
      ensures x in a <==> x in b
    {
      assert x in a <==> x in multiset(a);
      assert x in b <==> x in multiset(b);
    }
    assert |multiset(a)| == |multiset(b)|;
  }

  lemma CountTwo<T>(s: seq<T>, i: nat, j: nat)
    requires i < j < |s| && s[i] == s[j]
    ensures multiset(s)[s[i]] >= 2
  {
    assert s == s[..i] + [s[i]] + s[i + 1..j] + [s[j]] + s[j + 1..];
  }

  lemma CountOne<T, K>(s: seq<T>, key: T -> K, m: nat)
    requires m < |s| && DistinctKeys(s, key)
    ensures multiset(s)[s[m]] == 1
  {
    assert s == s[..m] + [s[m]] + s[m + 1..];
    assert s[m] !in s[..m] && s[m] !in s[m + 1..];
  }

  /** Distinct keys survive reordering. */
  lemma DistinctPermutes<T, K>(a: seq<T>, b: seq<T>, key: T -> K)
    requires multiset(a) == multiset(b) && DistinctKeys(a, key)
    ensures DistinctKeys(b, key)
  {
    SameMembers(a, b);
    forall i, j | 0 <= i < j < |b|
      ensures key(b[i]) != key(b[j])
    {
      assert b[i] in a && b[j] in a;
      var m :| 0 <= m < |a| && a[m] == b[i];
      var n :| 0 <= n < |a| && a[n] == b[j];
      CountOne(a, key, m);
      if key(b[i]) == key(b[j]) {
        CountTwo(b, i, j);
      }
    }
  }

  /** Without repetition, the members determine the multiset. */
  lemma DistinctSameMembers<T(!new), K>(a: seq<T>, b: seq<T>, key: T -> K)
    requires DistinctKeys(a, key) && DistinctKeys(b, key)
    requires forall x :: x in a <==> x in b
    ensures multiset(a) == multiset(b)
  {
    forall x
      ensures multiset(a)[x] == multiset(b)[x]
    {
      if x in a {
        var m :| 0 <= m < |a| && a[m] == x;
        var n :| 0 <= n < |b| && b[n] == x;
        CountOne(a, key, m);
        CountOne(b, key, n);
      }
    }
  }

  lemma DistinctUntied<T(!new)>(s: seq<T>, key: T -> string)
    requires DistinctKeys(s, key)
    ensures Untied(s, key)
  {
    forall x, y | x in s && y in s && key(x) == key(y)
      ensures x == y
    {
      var i :| 0 <= i < |s| && s[i] == x;
      var j :| 0 <= j < |s| && s[j] == y;
      assert i == j;
    }
  }
}
