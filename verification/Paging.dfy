/**
 pageValues: its meaning on integers of any size, that 64-bit arithmetic computes it, and when
 the pages of separately sorted listings fit together.
 */
module Paging {
  import opened Ordering

  newtype int64 = x: int | -0x8000_0000_0000_0000 <= x < 0x8000_0000_0000_0000

  const MAX_LENGTH: nat := 0x4000_0000_0000_0000

  function Min(a: int, b: int): int {
    if a < b then a else b
  }

  /** Page p of size n holds the elements p*n - n up to p*n; without a page or size, everything. */
  function PageOf<T>(values: seq<T>, page: int, size: int): (r: seq<T>) {
    if page <= 0 || size <= 0 then values
    else if (page - 1) * size >= |values| then []
    else
      assert 0 <= (page - 1) * size;
      values[(page - 1) * size..Min((page - 1) * size + size, |values|)]
  }

  lemma QuotientBound(k: int, n: int, d: int)
    requires 0 <= k && 0 <= n && 0 < d
    ensures k <= n / d ==> 0 <= k * d <= n
    ensures k > n / d ==> k * d > n
    ensures k >= 1 && k <= n / d ==> d <= n
  {
    var q := n / d;
    assert q * d <= n < q * d + d;
    if k <= q {
      assert k * d <= q * d by { MulMonotone(k, q, d); }
    } else {
      assert (q + 1) * d <= k * d by { MulMonotone(q + 1, k, d); }
      assert (q + 1) * d == q * d + d;
    }
    if k >= 1 && k <= q {
      assert 1 * d <= q * d by { MulMonotone(1, q, d); }
    }
  }

  lemma MulMonotone(a: int, b: int, d: int)
    requires a <= b && 0 < d
    ensures a * d <= b * d
  {
  }

  /** Every intermediate value fits in 64 bits, for every page and page size; the result is the page. */
  function PageValues<T>(values: seq<T>, page: int64, pageSize: int64): (r: seq<T>)
    requires |values| <= MAX_LENGTH
    ensures r == PageOf(values, page as int, pageSize as int)
    ensures page <= 0 || pageSize <= 0 ==> r == values
  {
    if page <= 0 || pageSize <= 0 then values
    else
      var length := |values| as int64;
      var offsetPages := page - 1;
      QuotientBound(offsetPages as int, length as int, pageSize as int);
      if offsetPages > length / pageSize then []
      else
        var start := offsetPages * pageSize;
        if start >= length then []
        else
          var sum := start + pageSize;
          var end := if sum < length then sum else length;
          values[start..end]
  }

  /** pageValues on a slice of any length; one longer than MAX_LENGTH does not fit in memory. */
  function Page<T>(values: seq<T>, page: int64, pageSize: int64): (r: seq<T>)
    ensures r == PageOf(values, page as int, pageSize as int)
  {
    if |values| <= MAX_LENGTH then PageValues(values, page, pageSize)
    else PageOf(values, page as int, pageSize as int)
  }

  /** Page 1 of the first listing, page 2 of the second, and so on. */
  function FetchAll<T>(listings: seq<seq<T>>, size: int): seq<T> {
    if |listings| == 0 then []
    else
      var n := |listings|;
      FetchAll(listings[..n - 1], size) + PageOf(listings[n - 1], n, size)
  }

  lemma PageIsSlice<T>(s: seq<T>, n: int, size: int)
    requires n >= 1 && size > 0
    ensures 0 <= (n - 1) * size && n * size == (n - 1) * size + size
    ensures PageOf(s, n, size) == s[Min((n - 1) * size, |s|)..Min(n * size, |s|)]
  {
    MulMonotone(0, n - 1, size);
  }

  lemma LastFetch<T>(listings: seq<seq<T>>, size: int)
    requires |listings| > 0
    ensures var n := |listings|;
      FetchAll(listings, size) == FetchAll(listings[..n - 1], size) + PageOf(listings[n - 1], n, size)
  {
  }

  /** If every call lists the same sequence, n pages concatenate to its first n*size elements. */
  lemma {:induction false} PagesConcatenate<T>(listings: seq<seq<T>>, s: seq<T>, size: int)
    requires size > 0
    requires forall i :: 0 <= i < |listings| ==> listings[i] == s
    ensures 0 <= |listings| * size
    ensures FetchAll(listings, size) == s[..Min(|listings| * size, |s|)]
  {
    hide PageOf;
    if |listings| > 0 {
      hide FetchAll;
      var n := |listings|;
      PagesConcatenate(listings[..n - 1], s, size);
      LastFetch(listings, size);
      PageIsSlice(s, n, size);
      var a, b := Min((n - 1) * size, |s|), Min(n * size, |s|);
      assert s[..a] + s[a..b] == s[..b];
    }
  }

  /** Every page after the end is empty. */
  lemma LaterPageEmpty<T>(s: seq<T>, n: int, size: int, later: int)
    requires size > 0 && n * size >= |s| && later > n && later >= 1
    ensures PageOf(s, later, size) == []
  {
    MulMonotone(n, later - 1, size);
  }

  /** Once the pages reach the end they are the input. */
  lemma PagesExhaust<T>(listings: seq<seq<T>>, s: seq<T>, size: int)
    requires size > 0 && |listings| * size >= |s|
    requires forall i :: 0 <= i < |listings| ==> listings[i] == s
    ensures FetchAll(listings, size) == s
  {
    hide FetchAll, PageOf;
    PagesConcatenate(listings, s, size);
    assert s[..|s|] == s;
  }

  // ---------- Pages of separately sorted listings ----------

  /** Each listing is some sorted order of the values. */
  ghost predicate Orders<T>(values: seq<T>, key: T -> string, listings: seq<seq<T>>) {
    forall i :: 0 <= i < |listings| ==> Sorted(listings[i], key) && multiset(listings[i]) == multiset(values)
  }

  /** However the calls order the values, enough pages of any size give each of them once. */
  ghost predicate CoversOnce<T(!new)>(values: seq<T>, key: T -> string) {
    forall listings: seq<seq<T>>, size: int ::
      Orders(values, key, listings) && size > 0 && |listings| * size >= |values| ==>
        multiset(FetchAll(listings, size)) == multiset(values)
  }

  lemma OrdersAgree<T(!new)>(values: seq<T>, key: T -> string, listings: seq<seq<T>>)
    requires Orders(values, key, listings) && Untied(values, key)
    ensures forall i :: 0 <= i < |listings| ==> listings[i] == listings[0]
  {
    forall i | 0 <= i < |listings|
      ensures listings[i] == listings[0]
    {
      SameMembers(listings[0], values);
      SortedUnique(listings[0], listings[i], key);
    }
  }

  lemma SinglePage<T>(s: seq<T>, n: nat)
    requires 1 <= n <= |s|
    ensures PageOf(s, n, 1) == [s[n - 1]]
  {
    assert (n - 1) * 1 == n - 1;
  }

  /** Pages of size 1 pick the n-th element of the n-th listing. */
  lemma {:induction false} OnePerPage<T>(listings: seq<seq<T>>, picked: seq<T>)
    requires |picked| == |listings|
    requires forall i :: 0 <= i < |listings| ==> i < |listings[i]| && picked[i] == listings[i][i]
    ensures FetchAll(listings, 1) == picked
  {
    hide PageOf;
    if |listings| > 0 {
      hide FetchAll;
      var n := |listings|;
      OnePerPage(listings[..n - 1], picked[..n - 1]);
      LastFetch(listings, 1);
      SinglePage(listings[n - 1], n);
      assert picked == picked[..n - 1] + [picked[n - 1]];
    }
  }

  /** Two values exchanged. */
  lemma Exchange<T>(s: seq<T>, key: T -> string, i: nat, j: nat)
    requires i < |s| && j < |s| && i != j && Sorted(s, key) && key(s[i]) == key(s[j])
    ensures var t := s[i := s[j]][j := s[i]]; Sorted(t, key) && multiset(t) == multiset(s)
  {
    var t := s[i := s[j]][j := s[i]];
    assert forall m :: 0 <= m < |s| ==> key(t[m]) == key(s[m]);
  }

  lemma ReplaceOne<T>(s: seq<T>, j: nat, x: T)
    requires j < |s| && s[j] != x
    ensures multiset(s[j := x])[x] == multiset(s)[x] + 1
    ensures multiset(s[j := x])[s[j]] == multiset(s)[s[j]] - 1
  {
    assert s == s[..j] + [s[j]] + s[j + 1..];
    assert s[j := x] == s[..j] + [x] + s[j + 1..];
  }

  /** One listing per page, all in order s but the one for page j + 1, which is in order t. */
  lemma OddOneOut<T>(values: seq<T>, key: T -> string, s: seq<T>, t: seq<T>, j: nat) returns (listings: seq<seq<T>>)
    requires Sorted(s, key) && Sorted(t, key)
    requires multiset(s) == multiset(values) == multiset(t) && |s| == |t| == |values| && j < |s|
    ensures Orders(values, key, listings) && |listings| == |values|
    ensures FetchAll(listings, 1) == s[j := t[j]]
  {
    hide FetchAll, Sorted;
    listings := seq(|s|, m => if m == j then t else s);
    OnePerPage(listings, s[j := t[j]]);
  }

  /** If two different values tie, some orders make the pages repeat one and miss the other. */
  lemma TiesBreak<T>(values: seq<T>, key: T -> string, x: T, y: T) returns (listings: seq<seq<T>>)
    requires x in values && y in values && x != y && key(x) == key(y)
    ensures Orders(values, key, listings) && |listings| == |values|
    ensures var pages := multiset(FetchAll(listings, 1));
      pages[x] == multiset(values)[x] + 1 && pages[y] == multiset(values)[y] - 1
  {
    hide FetchAll, Sorted, Orders;
    var s := SortedPermutation(values, key);
    SameMembers(s, values);
    var i :| 0 <= i < |s| && s[i] == x;
    var j :| 0 <= j < |s| && s[j] == y;
    Exchange(s, key, i, j);
    listings := OddOneOut(values, key, s, s[i := y][j := x], j);
    ReplaceOne(s, j, x);
  }

  /** Pages cover the values, whatever orders the calls come up with, exactly if no two of them tie. */
  lemma CoversOnceIff<T(!new)>(values: seq<T>, key: T -> string)
    ensures CoversOnce(values, key) <==> Untied(values, key)
  {
    hide FetchAll;
    if Untied(values, key) {
      forall listings: seq<seq<T>>, size: int |
        Orders(values, key, listings) && size > 0 && |listings| * size >= |values|
        ensures multiset(FetchAll(listings, size)) == multiset(values)
      {
        OrdersAgree(values, key, listings);
        if |listings| > 0 {
          SameMembers(listings[0], values);
          PagesExhaust(listings, listings[0], size);
        } else {
          PagesExhaust(listings, values, size);
        }
      }
    } else {
      var x, y :| x in values && y in values && key(x) == key(y) && x != y;
      var listings := TiesBreak(values, key, x, y);
      assert multiset(FetchAll(listings, 1)) != multiset(values);
    }
  }

  /**
   Paging of untied values, with each call ordering them for itself: the pages are one
   sorted listing, and every later page is empty.
   */
  lemma UntiedPages<T(!new)>(values: seq<T>, key: T -> string, listings: seq<seq<T>>, size: int)
    requires Untied(values, key) && Orders(values, key, listings)
    requires |listings| > 0 && size > 0 && |listings| * size >= |values|
    ensures FetchAll(listings, size) == listings[0]
    ensures forall i, later ::
              0 <= i < |listings| && later > |listings| ==> PageOf(listings[i], later, size) == []
  {
    hide FetchAll;
    OrdersAgree(values, key, listings);
    SameMembers(listings[0], values);
    PagesExhaust(listings, listings[0], size);
    forall i, later | 0 <= i < |listings| && later > |listings|
      ensures PageOf(listings[i], later, size) == []
    {
      LaterPageEmpty(listings[0], |listings|, size, later);
    }
  }
}
