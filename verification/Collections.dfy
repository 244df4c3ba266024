/** Sequence facts the rest of the project shares: duplicate-free lists, the two ways a member is
    removed from one, and the stable sort behind Go's `sort.SliceStable` and SQL's `ORDER BY`. */
module Collections {

  datatype Option<+T> = None | Some(value: T)

  datatype Result<+T, +E> = Success(value: T) | Failure(error: E)

  predicate NoDuplicates<T(==)>(s: seq<T>) {
    forall i, j :: 0 <= i < j < |s| ==> s[i] != s[j]
  }

  /** The first position of x in s, or |s|. */
  function IndexOf<T(==)>(s: seq<T>, x: T): (i: nat)
    ensures i <= |s|
    ensures i < |s| ==> s[i] == x
    ensures x !in s[..i]
    ensures i == |s| <==> x !in s
  {
    if s == [] then 0
    else if s[0] == x then 0
    else
      var i := 1 + IndexOf(s[1..], x);
      assert s[..i] == [s[0]] + s[1..][..i - 1];
      i
  }

  /** s with every occurrence of x taken out, order kept. */
  function Without<T(==)>(s: seq<T>, x: T): (r: seq<T>)
    ensures x !in r
    ensures x !in s ==> r == s
  {
    if s == [] then []
    else if s[|s| - 1] == x then Without(s[..|s| - 1], x)
    else Without(s[..|s| - 1], x) + [s[|s| - 1]]
  }

  /** s with only the first occurrence of x taken out. */
  function WithoutFirst<T(==)>(s: seq<T>, x: T): seq<T> {
    var i := IndexOf(s, x);
    if i < |s| then s[..i] + s[i + 1..] else s
  }

  lemma {:induction false} WithoutCounts<T>(s: seq<T>, x: T)
    ensures multiset(Without(s, x)) == multiset(s)[x := 0]
  {
    if s != [] {
      WithoutCounts(s[..|s| - 1], x);
      assert s == s[..|s| - 1] + [s[|s| - 1]];
    }
  }

  lemma WithoutFirstCounts<T>(s: seq<T>, x: T)
    ensures multiset(WithoutFirst(s, x)) == multiset(s) - multiset{x}
  {
    var i := IndexOf(s, x);
    if i < |s| {
      assert s == s[..i] + [s[i]] + s[i + 1..];
    } else {
      assert multiset(s)[x] == 0;
    }
  }

  lemma {:induction false} WithoutAppend<T>(s: seq<T>, more: seq<T>, x: T)
    ensures Without(s + more, x) == Without(s, x) + Without(more, x)
  {
    if more == [] {
      assert s + more == s;
    } else {
      var init, last := more[..|more| - 1], more[|more| - 1];
      assert more == init + [last];
      WithoutAppend(s, init, x);
      WithoutAppendStep(s, init, last, x);
    }
  }

  lemma WithoutAppendStep<T>(s: seq<T>, init: seq<T>, last: T, x: T)
    requires Without(s + init, x) == Without(s, x) + Without(init, x)
    ensures Without(s + (init + [last]), x) == Without(s, x) + Without(init + [last], x)
  {
    WithoutSnoc(s + init, last, x);
    WithoutSnoc(init, last, x);
    assert s + (init + [last]) == s + init + [last];
  }

  lemma WithoutSnoc<T>(s: seq<T>, y: T, x: T)
    ensures Without(s + [y], x) == Without(s, x) + if y == x then [] else [y]
  {
    assert (s + [y])[..|s|] == s;
  }

  /** The two removals give the same list exactly when there is at most one occurrence to remove. */
  lemma RemovalsAgree<T>(s: seq<T>, x: T)
    ensures WithoutFirst(s, x) == Without(s, x) <==> multiset(s)[x] <= 1
  {
    var i := IndexOf(s, x);
    if i == |s| {
      assert x !in multiset(s);
    } else {
      var front, back := s[..i], s[i + 1..];
      assert s == front + [x] + back;
      WithoutSplit(front, back, x);
      SplitCount(front, back, x);
      RestsAgree(front, back, x);
    }
  }

  lemma RestsAgree<T>(front: seq<T>, back: seq<T>, x: T)
    requires x !in front
    ensures front + back == front + Without(back, x) <==> x !in back
  {
    assert x !in front + Without(back, x);
    assert x in back ==> x in front + back;
  }

  lemma WithoutSplit<T>(front: seq<T>, back: seq<T>, x: T)
    requires x !in front
    ensures Without(front + [x] + back, x) == front + Without(back, x)
  {
    WithoutAppend(front + [x], back, x);
    assert (front + [x])[..|front|] == front;
  }

  lemma SplitCount<T>(front: seq<T>, back: seq<T>, x: T)
    requires x !in front
    ensures multiset(front + [x] + back)[x] <= 1 <==> x !in back
  {
    assert multiset(front)[x] == 0;
    assert x in back <==> multiset(back)[x] > 0;
  }

  lemma {:induction false} NoDuplicatesCounts<T>(s: seq<T>, x: T)
    requires NoDuplicates(s)
    ensures multiset(s)[x] <= 1
  {
    if s != [] {
      var init := s[..|s| - 1];
      NoDuplicatesCounts(init, x);
      assert s == init + [s[|s| - 1]];
      assert s[|s| - 1] !in init;
    }
  }

  /** The elements keep accepts, order kept. */
  function Where<T(!new)>(s: seq<T>, keep: T -> bool): (r: seq<T>)
    ensures forall x :: x in r <==> x in s && keep(x)
  {
    if s == [] then []
    else
      var last := s[|s| - 1];
      assert s == s[..|s| - 1] + [last];
      Where(s[..|s| - 1], keep) + (if keep(last) then [last] else [])
  }

  lemma WhereSnoc<T(!new)>(s: seq<T>, x: T, keep: T -> bool)
    ensures Where(s + [x], keep) == Where(s, keep) + if keep(x) then [x] else []
  {
    assert (s + [x])[..|s|] == s;
  }

  // Stable sorting by an integer key.

  predicate SortedBy<T>(s: seq<T>, key: T -> int) {
    forall i, j :: 0 <= i < j < |s| ==> key(s[i]) <= key(s[j])
  }

  /** x placed after every element whose key is not larger, which is what keeps the sort stable. */
  function InsertBy<T>(s: seq<T>, x: T, key: T -> int): seq<T> {
    if s == [] || key(s[|s| - 1]) <= key(x) then s + [x]
    else InsertBy(s[..|s| - 1], x, key) + [s[|s| - 1]]
  }

  function SortBy<T>(s: seq<T>, key: T -> int): seq<T> {
    if s == [] then [] else InsertBy(SortBy(s[..|s| - 1], key), s[|s| - 1], key)
  }

  /** The elements of s whose key is k, in order. */
  function WithKey<T>(s: seq<T>, key: T -> int, k: int): seq<T> {
    if s == [] then []
    else WithKey(s[..|s| - 1], key, k) + (if key(s[|s| - 1]) == k then [s[|s| - 1]] else [])
  }

  lemma {:induction false} InsertByOrders<T>(s: seq<T>, x: T, key: T -> int)
    requires SortedBy(s, key)
    ensures multiset(InsertBy(s, x, key)) == multiset(s) + multiset{x}
    ensures SortedBy(InsertBy(s, x, key), key)
  {
    if s != [] && key(s[|s| - 1]) > key(x) {
      var init, last := s[..|s| - 1], s[|s| - 1];
      InsertByOrders(init, x, key);
      var r := InsertBy(init, x, key);
      assert s == init + [last];
      forall i | 0 <= i < |r| ensures key(r[i]) <= key(last) {
        assert r[i] in multiset(r);
        assert r[i] == x || r[i] in init;
      }
    }
  }

  lemma {:induction false} InsertByStable<T>(s: seq<T>, x: T, key: T -> int, k: int)
    requires SortedBy(s, key)
    ensures WithKey(InsertBy(s, x, key), key, k) == WithKey(s + [x], key, k)
  {
    if s != [] && key(s[|s| - 1]) > key(x) {
      var init, last := s[..|s| - 1], s[|s| - 1];
      InsertByStable(init, x, key, k);
      var r := InsertBy(init, x, key);
      assert (s + [x])[..|s|] == s;
      assert (init + [x])[..|init|] == init;
      assert (r + [last])[..|r|] == r;
    }
  }

  /** SortBy is the stable sort: ordered, a permutation, and equal keys keep their order. */
  lemma {:induction false} SortByOrders<T>(s: seq<T>, key: T -> int)
    ensures SortedBy(SortBy(s, key), key)
    ensures multiset(SortBy(s, key)) == multiset(s)
  {
    if s != [] {
      var init, last := s[..|s| - 1], s[|s| - 1];
      SortByOrders(init, key);
      InsertByOrders(SortBy(init, key), last, key);
      assert s == init + [last];
    }
  }

  lemma {:induction false} SortByStable<T>(s: seq<T>, key: T -> int, k: int)
    ensures WithKey(SortBy(s, key), key, k) == WithKey(s, key, k)
  {
    if s != [] {
      var init, last := s[..|s| - 1], s[|s| - 1];
      var sorted := SortBy(init, key);
      SortByStable(init, key, k);
      SortByOrders(init, key);
      InsertByStable(sorted, last, key, k);
      assert (sorted + [last])[..|sorted|] == sorted;
    }
  }

  lemma {:induction false} SortedStaysPut<T>(s: seq<T>, key: T -> int)
    requires SortedBy(s, key)
    ensures SortBy(s, key) == s
  {
    if s != [] {
      var init := s[..|s| - 1];
      SortedStaysPut(init, key);
      assert s == init + [s[|s| - 1]];
    }
  }

  lemma {:induction false} WhereSorted<T(!new)>(s: seq<T>, keep: T -> bool, key: T -> int)
    requires SortedBy(s, key)
    ensures SortedBy(Where(s, keep), key)
  {
    if s != [] {
      var init, last := s[..|s| - 1], s[|s| - 1];
      WhereSorted(init, keep, key);
      var r := Where(init, keep);
      forall i | 0 <= i < |r| ensures key(r[i]) <= key(last) {
        assert r[i] in init;
      }
    }
  }

  /** Sorting keeps elements apart that no value of id joins. */
  lemma SortByKeepsApart<T(!new), K>(s: seq<T>, key: T -> int, id: T -> K)
    requires forall i, j :: 0 <= i < j < |s| ==> id(s[i]) != id(s[j])
    ensures var r := SortBy(s, key); |r| == |s| && forall i, j :: 0 <= i < j < |r| ==> id(r[i]) != id(r[j])
  {
    SortByOrders(s, key);
    var r := SortBy(s, key);
    assert |multiset(r)| == |multiset(s)|;
    forall i, j | 0 <= i < j < |r| ensures id(r[i]) != id(r[j]) {
      SortByMembers(s, key, r[i]);
      SortByMembers(s, key, r[j]);
      if r[i] == r[j] {
        NoDuplicatesCounts(s, r[i]);
        TwiceCounted(r, i, j);
      }
    }
  }

  lemma TwiceCounted<T>(s: seq<T>, i: nat, j: nat)
    requires i < j < |s| && s[i] == s[j]
    ensures multiset(s)[s[i]] >= 2
  {
    assert s == s[..i] + [s[i]] + s[i + 1..j] + [s[j]] + s[j + 1..];
  }

  predicate StrictlySortedBy<T>(s: seq<T>, key: T -> int) {
    forall i, j :: 0 <= i < j < |s| ==> key(s[i]) < key(s[j])
  }

  lemma InsertByMembers<T>(s: seq<T>, x: T, key: T -> int, y: T)
    requires SortedBy(s, key)
    ensures y in InsertBy(s, x, key) <==> y in s || y == x
  {
    InsertByOrders(s, x, key);
    assert y in InsertBy(s, x, key) <==> y in multiset(InsertBy(s, x, key));
    assert y in s <==> y in multiset(s);
  }

  lemma {:induction false} InsertByStrict<T>(s: seq<T>, x: T, key: T -> int)
    requires StrictlySortedBy(s, key)
    requires forall i :: 0 <= i < |s| ==> key(s[i]) != key(x)
    ensures StrictlySortedBy(InsertBy(s, x, key), key)
  {
    if s != [] && key(s[|s| - 1]) > key(x) {
      var init := s[..|s| - 1];
      assert s == init + [s[|s| - 1]];
      InsertByStrict(init, x, key);
      InsertByOrders(init, x, key);
      var r := InsertBy(init, x, key);
      forall i | 0 <= i < |r| ensures key(r[i]) < key(s[|s| - 1]) {
        assert r[i] in multiset(r);
        assert r[i] in multiset(init) || r[i] == x;
      }
    }
  }

  lemma SortByMembers<T>(s: seq<T>, key: T -> int, y: T)
    ensures y in SortBy(s, key) <==> y in s
  {
    SortByOrders(s, key);
    assert y in SortBy(s, key) <==> y in multiset(SortBy(s, key));
    assert y in s <==> y in multiset(s);
  }

  lemma {:induction false} SortByStrict<T>(s: seq<T>, key: T -> int)
    requires forall i, j :: 0 <= i < j < |s| ==> key(s[i]) != key(s[j])
    ensures StrictlySortedBy(SortBy(s, key), key)
  {
    if s != [] {
      var init, last := s[..|s| - 1], s[|s| - 1];
      var sorted := SortBy(init, key);
      SortByStrict(init, key);
      forall i | 0 <= i < |sorted| ensures key(sorted[i]) != key(last) {
        SortByMembers(init, key, sorted[i]);
        var j :| 0 <= j < |init| && init[j] == sorted[i];
        assert key(s[j]) != key(s[|s| - 1]);
      }
      InsertByStrict(sorted, last, key);
    }
  }

  /** With distinct keys an ordered arrangement of given elements is unique. */
  lemma {:induction false} SortedUnique<T>(a: seq<T>, b: seq<T>, key: T -> int)
    requires StrictlySortedBy(a, key) && StrictlySortedBy(b, key)
    requires forall x :: x in a <==> x in b
    ensures a == b
  {
    if a == [] {
      HasMember(b);
    } else {
      var x := a[|a| - 1];
      assert x in b;
      SameLast(a, b, key);
      var a', b' := a[..|a| - 1], b[..|b| - 1];
      assert a == a' + [x] && b == b' + [x];
      forall y ensures y in a' <==> y in b' {
        assert y in a' ==> y in b && key(y) < key(x);
        assert y in b' ==> y in a && key(y) < key(x);
      }
      SortedUnique(a', b', key);
    }
  }

  lemma HasMember<T>(s: seq<T>)
    ensures s != [] ==> exists x :: x in s
  {
    assert s != [] ==> s[0] in s;
  }

  lemma SameLast<T>(a: seq<T>, b: seq<T>, key: T -> int)
    requires StrictlySortedBy(a, key) && StrictlySortedBy(b, key)
    requires forall x :: x in a <==> x in b
    requires a != [] && b != []
    ensures a[|a| - 1] == b[|b| - 1]
  {
    var x, y := a[|a| - 1], b[|b| - 1];
    assert x in b && y in a;
    var i :| 0 <= i < |b| && b[i] == x;
    var j :| 0 <= j < |a| && a[j] == y;
  }
}
